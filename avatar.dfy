/**
 * The avatar classifier (`checkUserHasAvatar`): decides from a holder's profile
 * page whether the account is active (it still shows an avatar) or terminated.
 * The browser is replaced by a `Profile` value holding what the page would
 * give the scraper: the `src` of each avatar selector, the page source and the
 * matches of the two `tr.rbxcdn.com` regular expressions.
 */
module Avatar {
  import opened Wrappers
  import opened JsStrings

  /** `{ valid, avatarUrl }`; `avatarUrl` is `null` when no avatar image was identified. */
  datatype AvatarResult = AvatarResult(valid: bool, avatarUrl: Option<string>)

  /**
   * What the browser shows for one profile url.
   * - `loadFails`: `driver.get` throws, so nothing on the page is looked at.
   * - `srcs`: one entry per avatar selector, in the order they are tried
   *   (`img.mx-auto.d-block.w-100.h-100`, `img[src*="rbxcdn.com"]`,
   *   `.player-avatar img`, `#player_avatar img`), `None` when `findElement` finds nothing
   *   (or the lookup throws) and `Some(src)` with the `src` attribute otherwise.
   * - `sourceFails`: `driver.getPageSource` throws.
   * - `avatarMatch`, `cdnMatch`: the first match of the case-insensitive regular
   *   expressions for an avatar url and for any url on `https://tr.rbxcdn.com/`.
   */
  datatype Profile = Profile(
    loadFails: bool,
    srcs: seq<Option<string>>,
    sourceFails: bool,
    source: string,
    avatarMatch: Option<string>,
    cdnMatch: Option<string>)

  /** A profile url that cannot be opened: `driver.get` throws. */
  const Unreachable := Profile(true, [], false, "", None, None)

  /** The fail-open answer: active, no avatar url. */
  const Undetermined := AvatarResult(true, None)

  /** The answer for a terminated account. */
  const Terminated := AvatarResult(false, None)

  /** The terminated-account placeholder test applied to a selector's `src`. */
  predicate IsPlaceholderSrc(src: string)
  {
    Contains(src, "transparent-square") || Contains(src, "placeholder")
  }

  /** A selector decides the question when its `src` is non-empty and is either a placeholder or on the CDN. */
  predicate Decisive(src: Option<string>)
  {
    src.Some? && src.value != "" && (IsPlaceholderSrc(src.value) || Contains(src.value, "rbxcdn.com"))
  }

  /** What a decisive selector says; the placeholder test comes first. */
  function SrcVerdict(src: Option<string>): (r: AvatarResult)
    requires Decisive(src)
    ensures r.valid <==> !IsPlaceholderSrc(src.value)
    ensures r.valid ==> r.avatarUrl == src && Contains(src.value, "rbxcdn.com")
    ensures !r.valid ==> r.avatarUrl == None
  {
    if IsPlaceholderSrc(src.value) then Terminated else AvatarResult(true, src)
  }

  /** The verdict of the first decisive selector, if any. */
  function SelectorVerdict(srcs: seq<Option<string>>): Option<AvatarResult>
  {
    if srcs == [] then None
    else if Decisive(srcs[0]) then Some(SrcVerdict(srcs[0]))
    else SelectorVerdict(srcs[1..])
  }

  /** The page-source fallback, used when no selector decided. */
  function SourceVerdict(p: Profile): (r: AvatarResult)
    ensures !r.valid <==>
      p.avatarMatch.None? && p.cdnMatch.None? &&
      Contains(p.source, "transparent-square-110.png") && !Contains(p.source, "tr.rbxcdn.com")
    ensures r.avatarUrl.Some? ==> r.avatarUrl == p.avatarMatch || r.avatarUrl == p.cdnMatch
    ensures p.avatarMatch.Some? ==> r == AvatarResult(true, p.avatarMatch)
    ensures p.avatarMatch.None? && p.cdnMatch.Some? ==> r == AvatarResult(true, p.cdnMatch)
  {
    if p.avatarMatch.Some? then AvatarResult(true, p.avatarMatch)
    else if p.cdnMatch.Some? then AvatarResult(true, p.cdnMatch)
    else if Contains(p.source, "transparent-square-110.png") && !Contains(p.source, "tr.rbxcdn.com") then Terminated
    else Undetermined
  }

  /** The whole cascade, as a function of the page. */
  function Classification(p: Profile): AvatarResult
  {
    if p.loadFails then Undetermined
    else match SelectorVerdict(p.srcs)
      case Some(r) => r
      case None => if p.sourceFails then Undetermined else SourceVerdict(p)
  }

  /** `checkUserHasAvatar`: try the selectors in order, then fall back to the page source. */
  method CheckUserHasAvatar(p: Profile) returns (r: AvatarResult)
    ensures r == Classification(p)
  {
    if p.loadFails {
      return Undetermined;
    }
    var i := 0;
    while i < |p.srcs|
      invariant 0 <= i <= |p.srcs|
      invariant SelectorVerdict(p.srcs) == SelectorVerdict(p.srcs[i..])
    {
      var src := p.srcs[i];
      if src.Some? && src.value != "" {
        if Contains(src.value, "transparent-square") || Contains(src.value, "placeholder") {
          return AvatarResult(false, None);
        }
        if Contains(src.value, "rbxcdn.com") {
          return AvatarResult(true, Some(src.value));
        }
      }
      assert p.srcs[i..][1..] == p.srcs[i + 1..];
      i := i + 1;
    }
    if p.sourceFails {
      return Undetermined;
    }
    r := SourceVerdict(p);
  }

  /** The selector stage answers with the first decisive selector and with nothing when there is none. */
  lemma {:induction false} SelectorVerdictIsFirstDecisive(srcs: seq<Option<string>>)
    ensures SelectorVerdict(srcs).None? <==> forall k | 0 <= k < |srcs| :: !Decisive(srcs[k])
    ensures forall k | 0 <= k < |srcs| ::
      Decisive(srcs[k]) && (forall j | 0 <= j < k :: !Decisive(srcs[j])) ==>
        SelectorVerdict(srcs) == Some(SrcVerdict(srcs[k]))
  {
    if srcs != [] {
      SelectorVerdictIsFirstDecisive(srcs[1..]);
      assert forall k | 1 <= k < |srcs| :: srcs[k] == srcs[1..][k - 1];
    }
  }

  /**
   * A placeholder `src` on the first decisive selector makes the account
   * terminated even when the same `src` is also on the CDN: the placeholder
   * test is made first.
   */
  lemma PlaceholderBeforeCdn(p: Profile, k: nat)
    requires !p.loadFails && k < |p.srcs|
    requires p.srcs[k].Some? && p.srcs[k].value != "" && IsPlaceholderSrc(p.srcs[k].value)
    requires forall j | 0 <= j < k :: !Decisive(p.srcs[j])
    ensures Classification(p) == Terminated
  {
    SelectorVerdictIsFirstDecisive(p.srcs);
  }

  /** A non-empty CDN `src` that is not a placeholder, on the first decisive selector, is the avatar. */
  lemma CdnSrcIsAvatar(p: Profile, k: nat)
    requires !p.loadFails && k < |p.srcs|
    requires p.srcs[k].Some? && p.srcs[k].value != ""
    requires Contains(p.srcs[k].value, "rbxcdn.com") && !IsPlaceholderSrc(p.srcs[k].value)
    requires forall j | 0 <= j < k :: !Decisive(p.srcs[j])
    ensures Classification(p) == AvatarResult(true, p.srcs[k])
  {
    SelectorVerdictIsFirstDecisive(p.srcs);
  }

  /**
   * The classifier says "terminated" in exactly two situations: the first
   * decisive selector shows a placeholder, or no selector decides, the page
   * source was read, neither regular expression matched, and the source has
   * the placeholder file name but no `tr.rbxcdn.com` at all.
   */
  lemma TerminatedExactly(p: Profile)
    ensures !Classification(p).valid <==>
      !p.loadFails &&
      ((exists k | 0 <= k < |p.srcs| ::
          Decisive(p.srcs[k]) && IsPlaceholderSrc(p.srcs[k].value) &&
          forall j | 0 <= j < k :: !Decisive(p.srcs[j]))
       || ((forall k | 0 <= k < |p.srcs| :: !Decisive(p.srcs[k])) &&
           !p.sourceFails && p.avatarMatch.None? && p.cdnMatch.None? &&
           Contains(p.source, "transparent-square-110.png") && !Contains(p.source, "tr.rbxcdn.com")))
  {
    SelectorVerdictIsFirstDecisive(p.srcs);
    if !p.loadFails && SelectorVerdict(p.srcs).Some? {
      var k := FirstDecisive(p.srcs);
      assert forall k' | 0 <= k' < |p.srcs| && Decisive(p.srcs[k']) &&
        (forall j | 0 <= j < k' :: !Decisive(p.srcs[j])) :: k' == k;
    }
  }

  /** The index of the first decisive selector, when there is one. */
  ghost function FirstDecisive(srcs: seq<Option<string>>): (k: nat)
    requires exists k | 0 <= k < |srcs| :: Decisive(srcs[k])
    ensures k < |srcs| && Decisive(srcs[k]) && forall j | 0 <= j < k :: !Decisive(srcs[j])
  {
    if Decisive(srcs[0]) then 0
    else
      var k' :| 0 <= k' < |srcs| && Decisive(srcs[k']);
      assert srcs[1..][k' - 1] == srcs[k'];
      1 + FirstDecisive(srcs[1..])
  }

  /**
   * Fail-open: a page that cannot be opened, a page whose source cannot be
   * read before anything decided, and a page with no avatar markup at all
   * are all classified active without an avatar url.
   */
  lemma FailOpen(p: Profile)
    requires p.loadFails ||
      ((forall k | 0 <= k < |p.srcs| :: !Decisive(p.srcs[k])) &&
       (p.sourceFails ||
        (p.avatarMatch.None? && p.cdnMatch.None? && !Contains(p.source, "transparent-square-110.png"))))
    ensures Classification(p) == Undetermined
  {
    SelectorVerdictIsFirstDecisive(p.srcs);
  }

  /** A page whose only avatar evidence is the placeholder file name is classified terminated. */
  lemma PlaceholderOnlyIsTerminated(p: Profile)
    requires !p.loadFails && !p.sourceFails
    requires forall k | 0 <= k < |p.srcs| :: !Decisive(p.srcs[k])
    requires p.avatarMatch.None? && p.cdnMatch.None?
    requires Contains(p.source, "transparent-square-110.png") && !Contains(p.source, "tr.rbxcdn.com")
    ensures Classification(p) == Terminated
  {
    SelectorVerdictIsFirstDecisive(p.srcs);
  }

  /**
   * An avatar url, when one is reported, is a CDN `src` of some selector or one
   * of the two regular-expression matches; a terminated account never has one.
   */
  lemma AvatarUrlProvenance(p: Profile)
    ensures var r := Classification(p);
      && (!r.valid ==> r.avatarUrl.None?)
      && (r.avatarUrl.Some? ==>
            (exists k | 0 <= k < |p.srcs| :: p.srcs[k] == r.avatarUrl && Contains(r.avatarUrl.value, "rbxcdn.com"))
            || r.avatarUrl == p.avatarMatch || r.avatarUrl == p.cdnMatch)
  {
    SelectorVerdictIsFirstDecisive(p.srcs);
    if !p.loadFails && SelectorVerdict(p.srcs).Some? {
      var k := FirstDecisive(p.srcs);
      assert SelectorVerdict(p.srcs) == Some(SrcVerdict(p.srcs[k]));
    }
  }
}
