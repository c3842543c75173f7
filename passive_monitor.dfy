/**
  The text of the passive WhatsApp transcript (`src/web/inbound/passive-monitor.ts`):
  the name and body normalisation, the chat and speaker labels, and the
  Markdown entry appended for each message. The file system, the logger and
  the clock are outside this model: the entry's time of day is given as a
  string.
*/
module PassiveMonitor {
  import opened Wrappers
  import opened Text

  /** The fields of `PassiveWhatsAppMessage` that reach the transcript text. */
  datatype PassiveMessage = PassiveMessage(
    group: bool,
    chatId: string,
    groupSubject: Option<string>,
    senderE164: Option<string>,
    pushName: Option<string>,
    isFromMe: bool,
    body: string)

  /** `normalizeName(value)`: the trimmed name, or `null` when nothing but
      white space was given. */
  function NormalizeName(value: Option<string>): (r: Option<string>)
    ensures r.None? <==> value.None? || AllSpace(value.value)
    ensures r.Some? ==> r.value != [] && !IsSpace(r.value[0]) && !IsSpace(r.value[|r.value| - 1])
    ensures r.Some? ==> NonSpace(r.value) == NonSpace(value.value)
    ensures r.Some? ==> exists lo, hi | 0 <= lo <= hi <= |value.value| ::
      r.value == value.value[lo..hi] && AllSpace(value.value[..lo]) && AllSpace(value.value[hi..])
  {
    var trimmed := Trim(value.GetOr(""));
    TrimIsSlice(value.GetOr(""));
    if trimmed != "" then Some(trimmed) else None
  }

  /** `normalizeBody(value)`: runs of white space become one space and the
      ends are trimmed. The result has no white space at either end, no two
      white-space characters in a row, no white space but the plain space,
      and the same non-white-space characters as the input; it is empty
      exactly when the input is all white space. */
  function NormalizeBody(value: string): (r: string)
    ensures r == [] || (!IsSpace(r[0]) && !IsSpace(r[|r| - 1]))
    ensures PlainSpacing(r)
    ensures NonSpace(r) == NonSpace(value)
    ensures r == [] <==> AllSpace(value)
  {
    var collapsed := CollapseSpaces(value);
    var r := Trim(collapsed);
    CollapsePlainSpacing(value);
    CollapseKeepsNonSpace(value);
    TrimIsSlice(collapsed);
    var lo, hi :| 0 <= lo <= hi <= |collapsed| && r == collapsed[lo..hi];
    PlainSpacingSlice(collapsed, lo, hi);
    NonSpaceEmpty(value);
    NonSpaceEmpty(collapsed);
    r
  }

  /** Normalising a normalised body changes nothing. */
  lemma NormalizeBodyIdempotent(value: string)
    ensures NormalizeBody(NormalizeBody(value)) == NormalizeBody(value)
  {
    var r := NormalizeBody(value);
    CollapseFixesPlainSpacing(r);
    TrimFixesTrimmed(r);
  }

  /** A normalised body never spans more than one line. */
  lemma NormalizedBodyIsOneLine(value: string)
    ensures var r := NormalizeBody(value);
      '\n' !in r && '\r' !in r && '\U{2028}' !in r && '\U{2029}' !in r
  {
    assert IsSpace('\n') && IsSpace('\r') && IsSpace('\U{2028}') && IsSpace('\U{2029}');
  }

  /** A word without white space is its own normal form. */
  lemma NormalizeBodyWord(s: string)
    requires forall i | 0 <= i < |s| :: !IsSpace(s[i])
    ensures NormalizeBody(s) == s
  {
    CollapseFixesPlainSpacing(s);
    TrimFixesTrimmed(s);
  }

  /** A run of white space between two words, however long and of whatever
      kind, becomes exactly one plain space. */
  lemma NormalizeBodyRun(a: string, w: string, b: string)
    requires a != [] && !IsSpace(a[|a| - 1])
    requires w != [] && AllSpace(w)
    requires b != [] && !IsSpace(b[0])
    ensures NormalizeBody(a + w + b) == NormalizeBody(a) + " " + NormalizeBody(b)
  {
    CollapseRun(a, w, b);
    CollapseKeepsLast(a);
    TrimBetweenWords(CollapseSpaces(a), " ", CollapseSpaces(b));
  }

  /** White space around a body does not change its normal form. */
  lemma NormalizeBodyIgnoresSurroundingSpace(w1: string, s: string, w2: string)
    requires AllSpace(w1) && AllSpace(w2)
    ensures NormalizeBody(w1 + s + w2) == NormalizeBody(s)
  {
    TrimCollapseIgnoresSurroundingSpace(w1, s, w2);
  }

  /** `buildDirectLabel(chatId, name)`: the chat id, followed by the name in
      parentheses when there is one. */
  function BuildDirectLabel(chatId: string, name: Option<string>): (r: string)
    ensures StartsWith(r, chatId)
    ensures r == chatId <==> !Truthy(name)
    ensures Truthy(name) ==> EndsWith(r, " (" + name.value + ")")
    ensures Truthy(name) ==> |r| == |chatId| + |name.value| + 3
  {
    if !Truthy(name) then chatId else chatId + " (" + name.value + ")"
  }

  /** `buildGroupLabel(groupSubject, chatId)`: the subject when there is one,
      else the chat id. */
  function BuildGroupLabel(groupSubject: Option<string>, chatId: string): (r: string)
    ensures Truthy(groupSubject) ==> r == groupSubject.value
    ensures !Truthy(groupSubject) ==> r == chatId
  {
    if Truthy(groupSubject) then groupSubject.value else chatId
  }

  /** `buildGroupSpeaker(name, senderE164, isFromMe)`. */
  function BuildGroupSpeaker(name: Option<string>, senderE164: Option<string>, isFromMe: bool): string {
    if isFromMe then "You"
    else if Truthy(name) && Truthy(senderE164) then name.value + " (" + senderE164.value + ")"
    else if Truthy(name) then name.value
    else if Truthy(senderE164) then senderE164.value
    else "Unknown"
  }

  /** The group speaker is decided in priority order: the account's own
      messages are "You"; then the name, with the phone number in parentheses
      when both are known; then the phone number; then "Unknown". It is never
      empty. */
  lemma GroupSpeakerPriority(name: Option<string>, senderE164: Option<string>, isFromMe: bool)
    ensures var r := BuildGroupSpeaker(name, senderE164, isFromMe);
      && r != ""
      && (isFromMe ==> r == "You")
      && (!isFromMe && Truthy(name) ==> StartsWith(r, name.value))
      && (!isFromMe && Truthy(name) && Truthy(senderE164) ==>
            && StartsWith(r, name.value + " ")
            && EndsWith(r, "(" + senderE164.value + ")")
            && |r| == |name.value| + |senderE164.value| + 3)
      && (!isFromMe && Truthy(name) && !Truthy(senderE164) ==> r == name.value)
      && (!isFromMe && !Truthy(name) && Truthy(senderE164) ==> r == senderE164.value)
      && (!isFromMe && !Truthy(name) && !Truthy(senderE164) ==> r == "Unknown")
  {
    if !isFromMe && Truthy(name) && Truthy(senderE164) {
      var r := name.value + " (" + senderE164.value + ")";
      assert r[..|name.value|] == name.value;
      assert r[..|name.value| + 1] == name.value + " ";
      assert r[|r| - |"(" + senderE164.value + ")"|..] == "(" + senderE164.value + ")";
    }
  }

  /** `normalizeName` is `null` for a blank value and the trimmed value
      otherwise. */
  lemma NormalizeNameIsTrim(value: Option<string>)
    ensures NormalizeName(value) == if Blank(value) then None else Some(Trim(value.value))
  {
  }

  /** The heading of the message's section: the group label for a group, the
      direct label otherwise. */
  function SectionTitle(msg: PassiveMessage): (r: string)
    ensures msg.group && Blank(msg.groupSubject) ==> r == "Group: " + msg.chatId
    ensures msg.group && !Blank(msg.groupSubject) ==> r == "Group: " + Trim(msg.groupSubject.value)
    ensures !msg.group && Blank(msg.pushName) ==> r == "Direct: " + msg.chatId
    ensures !msg.group && !Blank(msg.pushName) ==>
      r == "Direct: " + msg.chatId + " (" + Trim(msg.pushName.value) + ")"
  {
    if msg.group then
      NormalizeNameIsTrim(msg.groupSubject);
      "Group: " + BuildGroupLabel(NormalizeName(msg.groupSubject), msg.chatId)
    else
      NormalizeNameIsTrim(msg.pushName);
      var chat := BuildDirectLabel(msg.chatId, NormalizeName(msg.pushName));
      assert !Blank(msg.pushName) ==>
        "Direct: " + chat == "Direct: " + msg.chatId + " (" + Trim(msg.pushName.value) + ")" by {
        if !Blank(msg.pushName) {
          var name := Trim(msg.pushName.value);
          assert chat == msg.chatId + " (" + name + ")";
          ConcatRegroup("Direct: ", msg.chatId, " (", name, ")");
        }
      }
      "Direct: " + chat
  }

  lemma ConcatRegroup(a: string, b: string, c: string, d: string, e: string)
    ensures a + (b + c + d + e) == a + b + c + d + e
  {
    assert b + c + d + e == b + (c + (d + e));
    assert a + b + c + d + e == a + (b + (c + (d + e)));
  }

  /** Who the entry says spoke: the group speaker in a group; in a direct chat
      "To" the chat for the account's own messages and "From" it otherwise. */
  function Speaker(msg: PassiveMessage): string {
    var name := NormalizeName(msg.pushName);
    if msg.group then BuildGroupSpeaker(name, msg.senderE164, msg.isFromMe)
    else if msg.isFromMe then "To " + BuildDirectLabel(msg.chatId, name)
    else "From " + BuildDirectLabel(msg.chatId, name)
  }

  /** The Markdown of one entry: a section heading, then one bullet with the
      time in bold, the speaker and the body. */
  function EntryText(section: string, timeStr: string, speaker: string, body: string): string {
    EntryHead(section, timeStr) + speaker + EntryTail(body)
  }

  /** The part of an entry before the speaker: the "## " heading line and the
      bullet's bold time. */
  function EntryHead(section: string, timeStr: string): string {
    "\n## " + section + "\n- **" + timeStr + "** "
  }

  /** The part of an entry after the speaker: ": ", the body and a newline. */
  function EntryTail(body: string): string {
    ": " + body + "\n"
  }

  /** The Markdown appended for a message at the given time of day, or nothing
      when the body is blank. */
  function Entry(msg: PassiveMessage, timeStr: string): (r: Option<string>)
    ensures r.None? <==> AllSpace(msg.body)
  {
    var body := NormalizeBody(msg.body);
    if body == "" then None
    else Some(EntryText(SectionTitle(msg), timeStr, Speaker(msg), body))
  }

  lemma EntryTextParts(section: string, timeStr: string, speaker: string, body: string)
    ensures var e := EntryText(section, timeStr, speaker, body);
      var head, tail := EntryHead(section, timeStr), EntryTail(body);
      && StartsWith(e, head) && EndsWith(e, tail)
      && |head| + |speaker| + |tail| == |e|
      && e[|head|..|e| - |tail|] == speaker
  {
    var e := EntryText(section, timeStr, speaker, body);
    var head, tail := EntryHead(section, timeStr), EntryTail(body);
    assert e == (head + speaker) + tail;
    assert e[..|head|] == head;
    assert e[|e| - |tail|..] == tail;
    assert e[|head|..|e| - |tail|] == speaker;
  }

  /** An entry opens a section headed by the message's chat, names the speaker
      after the bold time, and closes with ": ", the normalised body and one
      newline; the body cannot start a line of its own. */
  lemma EntryShape(msg: PassiveMessage, timeStr: string)
    requires !AllSpace(msg.body)
    ensures var e := Entry(msg, timeStr).value;
      var body := NormalizeBody(msg.body);
      var head, tail := EntryHead(SectionTitle(msg), timeStr), EntryTail(body);
      && StartsWith(e, head)
      && EndsWith(e, tail)
      && |head| + |tail| <= |e|
      && e[|head|..|e| - |tail|] == Speaker(msg)
      && '\n' !in body
  {
    var body := NormalizeBody(msg.body);
    var section, speaker := SectionTitle(msg), Speaker(msg);
    assert Entry(msg, timeStr).value == EntryText(section, timeStr, speaker, body);
    EntryTextParts(section, timeStr, speaker, body);
    NormalizedBodyIsOneLine(msg.body);
  }

  /** Group sections say "Group: ", direct ones "Direct: ". */
  lemma SectionKinds(msg: PassiveMessage)
    ensures msg.group <==> StartsWith(SectionTitle(msg), "Group: ")
    ensures !msg.group <==> StartsWith(SectionTitle(msg), "Direct: ")
  {
    var group, direct := "Group: ", "Direct: ";
    if msg.group {
      var chat := BuildGroupLabel(NormalizeName(msg.groupSubject), msg.chatId);
      assert SectionTitle(msg) == group + chat;
      StartsWithPrefix(group, chat);
      NotStartsWithOther(group, direct, chat);
    } else {
      var chat := BuildDirectLabel(msg.chatId, NormalizeName(msg.pushName));
      assert SectionTitle(msg) == direct + chat;
      StartsWithPrefix(direct, chat);
      NotStartsWithOther(direct, group, chat);
    }
  }

  /** In a direct chat the speaker names the same chat as the section
      heading, "To" it for the account's own messages and "From" it
      otherwise. */
  lemma DirectSpeakerNamesChat(msg: PassiveMessage)
    ensures !msg.group ==> |SectionTitle(msg)| >= 8
    ensures !msg.group ==>
      Speaker(msg) == (if msg.isFromMe then "To " else "From ") + SectionTitle(msg)[8..]
  {
    if !msg.group {
      var chat := BuildDirectLabel(msg.chatId, NormalizeName(msg.pushName));
      var t := SectionTitle(msg);
      assert t == "Direct: " + chat;
      assert t[8..] == chat;
    }
  }
}
