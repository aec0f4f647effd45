/**
 * The notification payload of `sendToWebhook`: one embed with three fields and
 * an optional avatar thumbnail. The POST itself and the embed's timestamp are
 * not part of this model.
 */
module Webhook {
  import opened Wrappers
  import opened JsStrings
  import opened Owners

  datatype Field = Field(name: string, value: string, inline: bool)
  datatype Thumbnail = Thumbnail(url: string)
  datatype Embed = Embed(title: string, color: int, fields: seq<Field>, thumbnail: Option<Thumbnail>)
  datatype Payload = Payload(embeds: seq<Embed>)

  const Title := "\U{2728} New Profile Found!"
  const Color := 0x00AE86
  const LinkPrefix := "[View Profile]("
  const LinkSuffix := ")"

  /** JavaScript truthiness of a string that may be `null`: present and non-empty. */
  predicate Truthy(s: Option<string>)
  {
    s.Some? && s.value != ""
  }

  /** `userData.discord || " "`: an empty handle becomes a single space. */
  function DiscordValue(discord: string): (v: string)
    ensures v != ""
    ensures discord != "" ==> v == discord
    ensures discord == "" ==> v == " "
  {
    if discord != "" then discord else " "
  }

  /** The markdown link to the profile page. */
  function ProfileLink(profileUrl: string): string
  {
    LinkPrefix + profileUrl + LinkSuffix
  }

  /** The embed for one found owner (its timestamp left out). */
  function BuildEmbed(owner: Owner): (e: Embed)
    ensures e.title == Title && e.color == Color && |e.fields| == 3
    ensures e.fields[0].value != "" && e.fields[2].value != ""
    ensures e.fields[0] == Field("Discord Username", DiscordValue(owner.discord), false)
    ensures owner.discord == "" ==> e.fields[0].value == " "
    ensures e.fields[1] == Field("Roblox Username", owner.username, true)
    ensures e.fields[2] == Field("Rolimons Profile", LinkPrefix + owner.profileUrl + LinkSuffix, false)
    ensures e.thumbnail.Some? <==> Truthy(owner.avatarUrl)
    ensures e.thumbnail.Some? ==> e.thumbnail.value.url == owner.avatarUrl.value
  {
    var embed := Embed(
      Title,
      Color,
      [ Field("Discord Username", DiscordValue(owner.discord), false),
        Field("Roblox Username", owner.username, true),
        Field("Rolimons Profile", ProfileLink(owner.profileUrl), false) ],
      None);
    if Truthy(owner.avatarUrl) then embed.(thumbnail := Some(Thumbnail(owner.avatarUrl.value))) else embed
  }

  /** What a receiver reads back from a payload: username, profile url and avatar url. */
  datatype Notice = Notice(username: string, profileUrl: string, avatarUrl: Option<string>)

  /** Reads a payload shaped like the ones `BuildPayload` makes; `None` for any other shape. */
  function ReadPayload(p: Payload): Option<Notice>
  {
    if |p.embeds| != 1 || |p.embeds[0].fields| != 3 then None
    else
      var e := p.embeds[0];
      var link := e.fields[2].value;
      if !StartsWith(link, LinkPrefix) || |link| < |LinkPrefix| + |LinkSuffix|
         || link[|link| - |LinkSuffix|..] != LinkSuffix then None
      else
        Some(Notice(
          e.fields[1].value,
          link[|LinkPrefix|..|link| - |LinkSuffix|],
          match e.thumbnail case Some(t) => Some(t.url) case None => None))
  }

  /** `{ embeds: [embed] }`. */
  function BuildPayload(owner: Owner): Payload
  {
    Payload([BuildEmbed(owner)])
  }

  /**
   * The payload carries the owner's username, profile url and, exactly when the
   * avatar url is truthy, that url: reading it back recovers all three.
   */
  lemma PayloadRoundTrip(owner: Owner)
    ensures ReadPayload(BuildPayload(owner)) ==
      Some(Notice(owner.username, owner.profileUrl, if Truthy(owner.avatarUrl) then owner.avatarUrl else None))
  {
    var link := ProfileLink(owner.profileUrl);
    assert link[..|LinkPrefix|] == LinkPrefix;
    assert link[|LinkPrefix|..|link| - |LinkSuffix|] == owner.profileUrl;
    assert link[|link| - |LinkSuffix|..] == LinkSuffix;
  }
}
