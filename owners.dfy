/**
 * Owner resolution (`findPreviousOwnerFromUAID`): from the player links on a
 * UAID's history page, collect the candidate previous owners and return the
 * first one whose profile the avatar classifier calls active.
 */
module Owners {
  import opened Wrappers
  import opened JsStrings
  import opened Avatar

  /** The origin prefixed to site-relative links. */
  const SiteOrigin := "https://www.rolimons.com"

  /** A player link `a[href*="/player/"]`: its `href` attribute (`None` when absent) and its text. */
  datatype Link = Link(href: Option<string>, text: string)

  /** `{ username, profileUrl }` of `potentialOwners`. */
  datatype Candidate = Candidate(username: string, profileUrl: string)

  /** The user data handed to the webhook; `discord` is always the empty placeholder here. */
  datatype Owner = Owner(username: string, profileUrl: string, avatarUrl: Option<string>, discord: string)

  /** An `href` made absolute: kept when it starts with `http`, otherwise prefixed with the site origin. */
  function AbsoluteUrl(href: string): (u: string)
    ensures StartsWith(u, "http")
    ensures |href| <= |u| && u[|u| - |href|..] == href
    ensures u == href || u == SiteOrigin + href
    ensures StartsWith(href, "http") ==> u == href
    ensures !StartsWith(href, "http") ==> u == SiteOrigin + href
  {
    if StartsWith(href, "http") then href else SiteOrigin + href
  }

  /** Making a url absolute twice changes nothing more than doing it once. */
  lemma AbsoluteUrlIdempotent(href: string)
    ensures AbsoluteUrl(AbsoluteUrl(href)) == AbsoluteUrl(href)
  {
  }

  /** The sentinel test on a holder link's text: deleted and hidden accounts. */
  predicate IsSentinel(text: string)
  {
    Contains(text, "Deleted") || Contains(text, "Hidden")
  }

  /** A link that yields a candidate: non-blank text, no sentinel, and an `href` to make absolute. */
  predicate Eligible(l: Link)
  {
    Trim(l.text) != "" && !IsSentinel(l.text) && l.href.Some?
  }

  /** `potentialOwners.find(o => o.username === username)` finds something. */
  predicate HasUsername(cs: seq<Candidate>, username: string)
  {
    exists k | 0 <= k < |cs| :: cs[k].username == username
  }

  /** The candidate an eligible link stands for. */
  function CandidateOf(l: Link): Candidate
    requires Eligible(l)
  {
    Candidate(Trim(l.text), AbsoluteUrl(l.href.value))
  }

  /** The candidate list after the links have been read in page order. */
  function Candidates(links: seq<Link>): seq<Candidate>
  {
    if links == [] then []
    else
      var prev := Candidates(links[..|links| - 1]);
      var l := links[|links| - 1];
      if Eligible(l) && !HasUsername(prev, Trim(l.text)) then prev + [CandidateOf(l)] else prev
  }

  /** The index of the first eligible link whose trimmed text is `username`. */
  function FirstLinkFor(links: seq<Link>, username: string): (r: Option<nat>)
    ensures r.Some? ==>
      r.value < |links| && Eligible(links[r.value]) && Trim(links[r.value].text) == username &&
      forall i | 0 <= i < r.value :: !(Eligible(links[i]) && Trim(links[i].text) == username)
    ensures r.None? ==>
      forall i | 0 <= i < |links| :: !(Eligible(links[i]) && Trim(links[i].text) == username)
  {
    if links == [] then None
    else if Eligible(links[0]) && Trim(links[0].text) == username then Some(0)
    else match FirstLinkFor(links[1..], username)
      case None => None
      case Some(i) => Some(i + 1)
  }

  /** Reading one more link changes `FirstLinkFor` only for a username it had not found yet. */
  lemma {:induction false} FirstLinkForSnoc(links: seq<Link>, l: Link, username: string)
    ensures FirstLinkFor(links + [l], username) ==
      if FirstLinkFor(links, username).Some? then FirstLinkFor(links, username)
      else if Eligible(l) && Trim(l.text) == username then Some(|links|)
      else None
  {
    if links != [] {
      assert (links + [l])[1..] == links[1..] + [l];
      FirstLinkForSnoc(links[1..], l, username);
    }
  }

  /** Adding a candidate keeps every username already there. */
  lemma HasUsernameSnoc(cs: seq<Candidate>, c: Candidate, username: string)
    requires HasUsername(cs, username)
    ensures HasUsername(cs + [c], username)
  {
    var k :| 0 <= k < |cs| && cs[k].username == username;
    assert (cs + [c])[k] == cs[k];
  }

  /** Every eligible link's username is among the candidates. */
  lemma {:induction false} CandidatesComplete(links: seq<Link>)
    ensures forall i | 0 <= i < |links| && Eligible(links[i]) :: HasUsername(Candidates(links), Trim(links[i].text))
  {
    if links != [] {
      var pre := links[..|links| - 1];
      CandidatesComplete(pre);
      forall i | 0 <= i < |links| && Eligible(links[i]) ensures HasUsername(Candidates(links), Trim(links[i].text)) {
        CandidatesCompleteStep(links, i);
      }
    }
  }

  lemma CandidatesCompleteStep(links: seq<Link>, i: nat)
    requires i < |links| && Eligible(links[i])
    requires var pre := links[..|links| - 1];
      forall j | 0 <= j < |pre| && Eligible(pre[j]) :: HasUsername(Candidates(pre), Trim(pre[j].text))
    ensures HasUsername(Candidates(links), Trim(links[i].text))
  {
    var pre := links[..|links| - 1];
    var l := links[|links| - 1];
    var prev := Candidates(pre);
    var u := Trim(links[i].text);
    var grows := Eligible(l) && !HasUsername(prev, Trim(l.text));
    assert Candidates(links) == if grows then prev + [CandidateOf(l)] else prev;
    if i < |pre| {
      assert links[i] == pre[i];
      assert HasUsername(prev, u);
      if grows { HasUsernameSnoc(prev, CandidateOf(l), u); }
    } else if grows {
      var c := CandidateOf(l);
      assert links[i] == l && c.username == u;
      assert (prev + [c])[|prev|] == c;
    }
  }

  /** A link that adds a candidate is the first eligible link with its username. */
  lemma NewCandidateIsFirst(pre: seq<Link>, l: Link)
    requires Eligible(l) && !HasUsername(Candidates(pre), Trim(l.text))
    ensures FirstLinkFor(pre, Trim(l.text)).None?
    ensures FirstLinkFor(pre + [l], Trim(l.text)) == Some(|pre|)
  {
    CandidatesComplete(pre);
    FirstLinkForSnoc(pre, l, Trim(l.text));
  }

  /** Each candidate is the one made from the first eligible link with its username. */
  predicate FromFirstLinks(links: seq<Link>)
  {
    var cs := Candidates(links);
    forall k | 0 <= k < |cs| ::
      FirstLinkFor(links, cs[k].username).Some? &&
      cs[k] == CandidateOf(links[FirstLinkFor(links, cs[k].username).value])
  }

  /** Each candidate is the one made from the first eligible link with its username. */
  lemma {:induction false} CandidatesFromFirstLinks(links: seq<Link>)
    ensures FromFirstLinks(links)
  {
    if links != [] {
      var pre := links[..|links| - 1];
      var l := links[|links| - 1];
      CandidatesFromFirstLinks(pre);
      assert links == pre + [l];
      FromFirstLinksSnoc(pre, l);
    }
  }

  /** The step of `CandidatesFromFirstLinks`: one more link keeps the property. */
  lemma FromFirstLinksSnoc(pre: seq<Link>, l: Link)
    requires FromFirstLinks(pre)
    ensures FromFirstLinks(pre + [l])
  {
    var links := pre + [l];
    assert links[..|links| - 1] == pre;
    var prev := Candidates(pre);
    var cs := Candidates(links);
    forall k | 0 <= k < |cs|
      ensures FirstLinkFor(links, cs[k].username).Some? &&
        cs[k] == CandidateOf(links[FirstLinkFor(links, cs[k].username).value])
    {
      var u := cs[k].username;
      FirstLinkForSnoc(pre, l, u);
      if k < |prev| {
        assert cs[k] == prev[k];
        var i := FirstLinkFor(pre, u).value;
        assert links[i] == pre[i];
      } else {
        NewCandidateIsFirst(pre, l);
      }
    }
  }

  /** The candidates come in the order in which their usernames first appear among the links. */
  predicate InFirstAppearanceOrder(links: seq<Link>)
  {
    var cs := Candidates(links);
    forall k1, k2 | 0 <= k1 < k2 < |cs| ::
      FirstLinkFor(links, cs[k1].username).Some? && FirstLinkFor(links, cs[k2].username).Some? &&
      FirstLinkFor(links, cs[k1].username).value < FirstLinkFor(links, cs[k2].username).value
  }

  /** The candidates come in the order in which their usernames first appear among the links. */
  lemma {:induction false} CandidatesInFirstAppearanceOrder(links: seq<Link>)
    ensures InFirstAppearanceOrder(links)
  {
    if links != [] {
      var pre := links[..|links| - 1];
      var l := links[|links| - 1];
      CandidatesInFirstAppearanceOrder(pre);
      CandidatesFromFirstLinks(pre);
      assert links == pre + [l];
      InFirstAppearanceOrderSnoc(pre, l);
    }
  }

  /** The step of `CandidatesInFirstAppearanceOrder`. */
  lemma InFirstAppearanceOrderSnoc(pre: seq<Link>, l: Link)
    requires InFirstAppearanceOrder(pre) && FromFirstLinks(pre)
    ensures InFirstAppearanceOrder(pre + [l])
  {
    var links := pre + [l];
    assert links[..|links| - 1] == pre;
    var prev := Candidates(pre);
    var cs := Candidates(links);
    forall k1, k2 | 0 <= k1 < k2 < |cs|
      ensures FirstLinkFor(links, cs[k1].username).Some? && FirstLinkFor(links, cs[k2].username).Some? &&
        FirstLinkFor(links, cs[k1].username).value < FirstLinkFor(links, cs[k2].username).value
    {
      var u1, u2 := cs[k1].username, cs[k2].username;
      assert cs[k1] == prev[k1];
      FirstLinkForSnoc(pre, l, u1);
      FirstLinkForSnoc(pre, l, u2);
      if k2 < |prev| {
        assert cs[k2] == prev[k2];
      } else {
        NewCandidateIsFirst(pre, l);
      }
    }
  }

  /** No two candidates share a username. */
  lemma CandidatesDistinct(links: seq<Link>)
    ensures var cs := Candidates(links);
      forall k1, k2 | 0 <= k1 < k2 < |cs| :: cs[k1].username != cs[k2].username
  {
    CandidatesInFirstAppearanceOrder(links);
  }

  /** Every candidate has a non-blank, trimmed username without a sentinel marker, and an absolute profile url. */
  lemma CandidatesWellFormed(links: seq<Link>)
    ensures forall c | c in Candidates(links) ::
      Trim(c.username) == c.username && c.username != "" && !IsSentinel(c.username)
      && StartsWith(c.profileUrl, "http")
  {
    CandidatesFromFirstLinks(links);
    var cs := Candidates(links);
    forall k | 0 <= k < |cs|
      ensures Trim(cs[k].username) == cs[k].username && cs[k].username != "" && !IsSentinel(cs[k].username)
      ensures StartsWith(cs[k].profileUrl, "http")
    {
      var l := links[FirstLinkFor(links, cs[k].username).value];
      TrimIdempotent(l.text);
      if Contains(Trim(l.text), "Deleted") { TrimKeepsContains(l.text, "Deleted"); }
      if Contains(Trim(l.text), "Hidden") { TrimKeepsContains(l.text, "Hidden"); }
    }
  }

  /** Building `potentialOwners`: read the player links in page order, skipping the ineligible and the repeated. */
  method CollectCandidates(links: seq<Link>) returns (owners: seq<Candidate>)
    ensures owners == Candidates(links)
  {
    owners := [];
    var i := 0;
    while i < |links|
      invariant 0 <= i <= |links|
      invariant owners == Candidates(links[..i])
    {
      var link := links[i];
      assert links[..i + 1][..i] == links[..i];
      if Trim(link.text) != "" && !(Contains(link.text, "Deleted") || Contains(link.text, "Hidden")) && link.href.Some? {
        var username := Trim(link.text);
        var profileUrl := AbsoluteUrl(link.href.value);
        if !HasUsername(owners, username) {
          owners := owners + [Candidate(username, profileUrl)];
        }
      }
      i := i + 1;
    }
    assert links[..i] == links;
  }

  /** How the classifier judges a profile url: an unknown url is one whose page cannot be opened. */
  function ClassifyUrl(profiles: map<string, Profile>, url: string): AvatarResult
  {
    Classification(if url in profiles then profiles[url] else Unreachable)
  }

  /** The owner reported for a valid candidate. */
  function OwnerFrom(c: Candidate, r: AvatarResult): Owner
  {
    Owner(c.username, c.profileUrl, r.avatarUrl, "")
  }

  /** The first candidate classified active, as an owner. */
  function FirstValid(cs: seq<Candidate>, profiles: map<string, Profile>): Option<Owner>
  {
    if cs == [] then None
    else
      var r := ClassifyUrl(profiles, cs[0].profileUrl);
      if r.valid then Some(OwnerFrom(cs[0], r)) else FirstValid(cs[1..], profiles)
  }

  /**
   * `FirstValid` picks the first candidate whose classification is valid and
   * reports none only when no candidate is valid.
   */
  lemma {:induction false} FirstValidIsFirst(cs: seq<Candidate>, profiles: map<string, Profile>)
    ensures FirstValid(cs, profiles).None? <==>
      forall k | 0 <= k < |cs| :: !ClassifyUrl(profiles, cs[k].profileUrl).valid
    ensures forall k | 0 <= k < |cs| ::
      ClassifyUrl(profiles, cs[k].profileUrl).valid &&
      (forall j | 0 <= j < k :: !ClassifyUrl(profiles, cs[j].profileUrl).valid) ==>
        FirstValid(cs, profiles) == Some(OwnerFrom(cs[k], ClassifyUrl(profiles, cs[k].profileUrl)))
  {
    if cs != [] {
      FirstValidIsFirst(cs[1..], profiles);
      assert forall k | 1 <= k < |cs| :: cs[k] == cs[1..][k - 1];
    }
  }

  /** What resolving one UAID page gives; a url that cannot be opened gives `null`. */
  function Resolve(uaidPages: map<string, seq<Link>>, profiles: map<string, Profile>, uaidUrl: string): Option<Owner>
  {
    if uaidUrl in uaidPages then FirstValid(Candidates(uaidPages[uaidUrl]), profiles) else None
  }

  /** A resolved owner is a candidate of the page, carries its classifier's avatar url and an empty discord handle. */
  lemma ResolvedOwnerIsCandidate(uaidPages: map<string, seq<Link>>, profiles: map<string, Profile>, uaidUrl: string)
    ensures var o := Resolve(uaidPages, profiles, uaidUrl);
      o.Some? ==>
        && uaidUrl in uaidPages
        && Candidate(o.value.username, o.value.profileUrl) in Candidates(uaidPages[uaidUrl])
        && ClassifyUrl(profiles, o.value.profileUrl) == AvatarResult(true, o.value.avatarUrl)
        && o.value.discord == ""
  {
    if uaidUrl in uaidPages {
      var cs := Candidates(uaidPages[uaidUrl]);
      FirstValidIsFirst(cs, profiles);
      if FirstValid(cs, profiles).Some? {
        var k := FirstValidIndex(cs, profiles);
        assert FirstValid(cs, profiles) == Some(OwnerFrom(cs[k], ClassifyUrl(profiles, cs[k].profileUrl)));
      }
    }
  }

  /** The index of the first candidate classified valid, when there is one. */
  ghost function FirstValidIndex(cs: seq<Candidate>, profiles: map<string, Profile>): (k: nat)
    requires exists k | 0 <= k < |cs| :: ClassifyUrl(profiles, cs[k].profileUrl).valid
    ensures k < |cs| && ClassifyUrl(profiles, cs[k].profileUrl).valid
    ensures forall j | 0 <= j < k :: !ClassifyUrl(profiles, cs[j].profileUrl).valid
  {
    if ClassifyUrl(profiles, cs[0].profileUrl).valid then 0
    else
      var k' :| 0 <= k' < |cs| && ClassifyUrl(profiles, cs[k'].profileUrl).valid;
      assert cs[1..][k' - 1] == cs[k'];
      1 + FirstValidIndex(cs[1..], profiles)
  }

  /**
   * The checking loop of `findPreviousOwnerFromUAID`: classify the candidates
   * one by one and stop at the first valid one. `checked` lists the profile
   * urls the classifier was run on, in order.
   */
  method CheckCandidates(cs: seq<Candidate>, profiles: map<string, Profile>)
    returns (owner: Option<Owner>, checked: seq<string>)
    ensures owner == FirstValid(cs, profiles)
    ensures |checked| <= |cs| && forall j | 0 <= j < |checked| :: checked[j] == cs[j].profileUrl
    ensures forall j | 0 <= j < |checked| - 1 :: !ClassifyUrl(profiles, checked[j]).valid
    ensures owner.Some? ==>
      |checked| > 0 && ClassifyUrl(profiles, checked[|checked| - 1]).valid &&
      owner.value == OwnerFrom(cs[|checked| - 1], ClassifyUrl(profiles, checked[|checked| - 1]))
    ensures owner.None? ==>
      |checked| == |cs| && forall j | 0 <= j < |checked| :: !ClassifyUrl(profiles, checked[j]).valid
  {
    checked := [];
    var i := 0;
    while i < |cs|
      invariant 0 <= i <= |cs| && |checked| == i
      invariant forall j | 0 <= j < i :: checked[j] == cs[j].profileUrl
      invariant forall j | 0 <= j < i :: !ClassifyUrl(profiles, checked[j]).valid
      invariant FirstValid(cs, profiles) == FirstValid(cs[i..], profiles)
    {
      var candidate := cs[i];
      var profile := if candidate.profileUrl in profiles then profiles[candidate.profileUrl] else Unreachable;
      var avatarCheck := CheckUserHasAvatar(profile);
      checked := checked + [candidate.profileUrl];
      if avatarCheck.valid {
        return Some(Owner(candidate.username, candidate.profileUrl, avatarCheck.avatarUrl, "")), checked;
      }
      assert cs[i..][1..] == cs[i + 1..];
      i := i + 1;
    }
    return None, checked;
  }

  /**
   * `findPreviousOwnerFromUAID`: open the UAID page (a url that cannot be
   * opened gives `null` without checking anyone), collect the candidates, and
   * check them in order.
   */
  method FindPreviousOwnerFromUaid(uaidPages: map<string, seq<Link>>, profiles: map<string, Profile>, uaidUrl: string)
    returns (owner: Option<Owner>, checked: seq<string>)
    ensures owner == Resolve(uaidPages, profiles, uaidUrl)
    ensures uaidUrl !in uaidPages ==> checked == []
    ensures uaidUrl in uaidPages ==>
      var cs := Candidates(uaidPages[uaidUrl]);
      && |checked| <= |cs|
      && (forall j | 0 <= j < |checked| :: checked[j] == cs[j].profileUrl)
      && (forall j | 0 <= j < |checked| - 1 :: !ClassifyUrl(profiles, checked[j]).valid)
      && (owner.Some? ==> |checked| > 0 && owner.value.profileUrl == checked[|checked| - 1])
      && (owner.None? ==> |checked| == |cs|)
  {
    if uaidUrl !in uaidPages {
      return None, [];
    }
    var potentialOwners := CollectCandidates(uaidPages[uaidUrl]);
    owner, checked := CheckCandidates(potentialOwners, profiles);
  }
}
