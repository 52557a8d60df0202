/** The posting tasks that run once the group is resolved: `sendMessage`,
    `uploadFile` and `sendFileMessage`, and the text of the file announcement. */
module Actions {
  import opened Js
  import opened Config

  /** The permalinks of the decoded `files.upload` reply (`body.file`). */
  datatype FileInfo = FileInfo(permalink: string, permalinkPublic: string)

  /** The form a task posts. */
  datatype Post =
    | PostMessage(channel: string, text: string)
    | UploadFile(channel: string, filename: string)

  /** `sendMessage`: skipped when there is no message, or when there is a
      file as well (the file announcement then carries the message). */
  function SendMessageTask(o: Options, channel: string): (p: Option<Post>)
    ensures p.Some? <==> Truthy(o.message) && !Truthy(o.file)
    ensures p.Some? ==> p.value == PostMessage(channel, o.message.s)
  {
    if !Truthy(o.message) || Truthy(And(o.message, o.file)) then None
    else Some(PostMessage(channel, o.message.s))
  }

  /** `uploadFile`: posts the file under its own path as file name. */
  function UploadFileTask(o: Options, channel: string): (p: Option<Post>)
    ensures p.Some? <==> Truthy(o.file)
    ensures p.Some? ==> p.value == UploadFile(channel, o.file.s)
  {
    if !Truthy(o.file) then None
    else Some(UploadFile(channel, o.file.s))
  }

  /** `options.message || options.file`, as the announcement prints it. */
  function Label(o: Options): string {
    Text(Or(o.message, o.file))
  }

  const PublicSuffix := "|Public Permalink>)"

  /** The announcement: a link to the private permalink titled by the label,
      followed by a link to the public permalink. */
  function Announcement(info: FileInfo, title: string): string {
    "<" + info.permalink + "|" + title + "> (<" + info.permalinkPublic + PublicSuffix
  }

  /** Reads the part of an announcement after the first '|' back into
      (title, public permalink): the public permalink starts after the last '<'. */
  function SplitTail(after: string): Option<(string, string)> {
    if |after| < |PublicSuffix| || after[|after| - |PublicSuffix|..] != PublicSuffix then None
    else
      var body := after[..|after| - |PublicSuffix|];
      var j := LastIndexOf(body, '<');
      if j < 3 || body[j - 3..j] != "> (" then None
      else Some((body[..j - 3], body[j + 1..]))
  }

  /** Reads an announcement back into (permalink, title, public permalink): the
      permalink runs to the first '|'. */
  function ParseAnnouncement(t: string): Option<(string, string, string)> {
    if |t| == 0 || t[0] != '<' then None
    else
      var rest := t[1..];
      var i := IndexOf(rest, '|');
      if i == |rest| then None
      else
        match SplitTail(rest[i + 1..])
        case None => None
        case Some(parts) => Some((rest[..i], parts.0, parts.1))
  }

  lemma SplitTailRoundTrip(title: string, pp: string)
    requires '<' !in pp
    ensures SplitTail(title + "> (<" + pp + PublicSuffix) == Some((title, pp))
  {
    var body := title + "> (<" + pp;
    var after := body + PublicSuffix;
    assert after[..|after| - |PublicSuffix|] == body;
    assert after[|after| - |PublicSuffix|..] == PublicSuffix;
    assert body == (title + "> (") + ['<'] + pp;
    LastIndexOfSeparator(title + "> (", '<', pp);
    var j := |title| + 3;
    assert body[j - 3..j] == "> (";
    assert body[..j - 3] == title;
    assert body[j + 1..] == pp;
  }

  /** The announcement names both permalinks and the title, recoverably, for
      any title, whenever the private permalink has no '|' and the public one
      no '<' (as URLs do not). */
  lemma AnnouncementRoundTrip(info: FileInfo, title: string)
    requires '|' !in info.permalink
    requires '<' !in info.permalinkPublic
    ensures ParseAnnouncement(Announcement(info, title))
            == Some((info.permalink, title, info.permalinkPublic))
  {
    var p, pp := info.permalink, info.permalinkPublic;
    var t := Announcement(info, title);
    var after := title + "> (<" + pp + PublicSuffix;
    assert t == "<" + (p + ['|'] + after);
    var rest := t[1..];
    assert rest == p + ['|'] + after;
    IndexOfSeparator(p, '|', after);
    assert rest[..|p|] == p;
    assert rest[|p| + 1..] == after;
    SplitTailRoundTrip(title, pp);
  }

  /** `sendFileMessage`: runs only when `uploadFile` produced a reply, and then
      announces the file under the message, or under the file name when there
      is no message. */
  function SendFileMessageTask(o: Options, channel: string, uploaded: Option<FileInfo>): (p: Option<Post>)
    ensures p.Some? <==> uploaded.Some?
    ensures p.Some? ==> p.value.PostMessage? && p.value.channel == channel
    ensures p.Some? && Truthy(o.message) ==>
              p.value.text == Announcement(uploaded.value, o.message.s)
    ensures p.Some? && !Truthy(o.message) ==>
              p.value.text == Announcement(uploaded.value, Text(o.file))
  {
    match uploaded
    case None => None
    case Some(info) => Some(PostMessage(channel, Announcement(info, Label(o))))
  }
}
