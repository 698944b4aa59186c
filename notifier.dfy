/**
 * The change alert of `TelegramNotifier` (src/telegram_notifier.py): the HTML message
 * built from a list of change events, and the decision whether to send one at all.
 */
module Notifier {
  import opened Wrappers
  import opened Text
  import opened Changes

  /** The first part of every alert; it ends in a newline of its own. */
  const Title: string := "<b>\U{1F514} Airtable Changes Detected</b>\n"

  const AddedPrefix: string := "<b>\U{2795} Added:</b> "
  const RemovedPrefix: string := "<b>\U{2796} Removed:</b> "
  const ModifiedPrefix: string := "<b>\U{270F}\U{FE0F} Modified:</b> "

  /** The lines naming the event: none for an unknown type, and the changed fields after a modification that has some. */
  function Headline(c: Change): seq<string> {
    match c.kind
    case Added => [AddedPrefix + c.serverName]
    case Removed => [RemovedPrefix + c.serverName]
    case Modified =>
      [ModifiedPrefix + c.serverName]
      + (if c.fieldsChanged == [] then [] else ["   <i>Changed fields: " + Join(", ", c.fieldsChanged) + "</i>"])
    case Other(_) => []
  }

  /** `key: value` for each detail whose value is non-empty, in order. */
  function DetailTexts(details: seq<Detail>): seq<string> {
    if details == [] then []
    else
      var d := details[|details| - 1];
      DetailTexts(details[..|details| - 1]) + (if d.value != "" then [d.key + ": " + d.value] else [])
  }

  /** The italic details line, present only when some detail has a value. */
  function DetailLine(details: seq<Detail>): seq<string> {
    var texts := DetailTexts(details);
    if texts == [] then [] else ["   <i>" + Join(", ", texts) + "</i>"]
  }

  /** The parts one event adds: its headline, its details, then an empty part. */
  function Block(c: Change): seq<string> {
    Headline(c) + DetailLine(c.details) + [""]
  }

  function Blocks(changes: seq<Change>): seq<string> {
    if changes == [] then [] else Blocks(changes[..|changes| - 1]) + Block(changes[|changes| - 1])
  }

  /** `message_parts` after the loop. */
  function MessageParts(changes: seq<Change>): seq<string> {
    [Title] + Blocks(changes)
  }

  /** `_format_changes_message(changes)` */
  function Message(changes: seq<Change>): string {
    Join("\n", MessageParts(changes))
  }

  /** `_format_changes_message`: the parts are built event by event and joined with newlines. */
  method FormatChangesMessage(changes: seq<Change>) returns (message: string)
    ensures message == Message(changes)
  {
    var messageParts := [Title];
    for i := 0 to |changes|
      invariant messageParts == MessageParts(changes[..i])
    {
      var block := FormatChange(changes[i]);
      MessagePartsStep(changes, i);
      messageParts := messageParts + block;
    }
    assert changes[..|changes|] == changes;
    message := Join("\n", messageParts);
  }

  /** The body of the loop of `_format_changes_message`: the parts one event appends. */
  method FormatChange(change: Change) returns (parts: seq<string>)
    ensures parts == Block(change)
  {
    parts := [];
    match change.kind {
      case Added =>
        parts := parts + [AddedPrefix + change.serverName];
      case Removed =>
        parts := parts + [RemovedPrefix + change.serverName];
      case Modified =>
        parts := parts + [ModifiedPrefix + change.serverName];
        if change.fieldsChanged != [] {
          var changesText := Join(", ", change.fieldsChanged);
          parts := parts + ["   <i>Changed fields: " + changesText + "</i>"];
        }
      case Other(_) =>
    }
    assert parts == Headline(change);
    if change.details != [] {
      var detailsText := FormatDetails(change.details);
      if detailsText != [] {
        parts := parts + ["   <i>" + Join(", ", detailsText) + "</i>"];
      }
    }
    parts := parts + [""];
  }

  /** The inner loop over `details.items()`. */
  method FormatDetails(details: seq<Detail>) returns (texts: seq<string>)
    ensures texts == DetailTexts(details)
  {
    texts := [];
    for j := 0 to |details|
      invariant texts == DetailTexts(details[..j])
    {
      assert details[..j + 1][..j] == details[..j];
      if details[j].value != "" {
        texts := texts + [details[j].key + ": " + details[j].value];
      }
    }
    assert details[..|details|] == details;
  }

  /** `send_change_alert`: no message for an empty list; otherwise the message, and the outcome `delivered` of sending it. */
  method SendChangeAlert(changes: seq<Change>, delivered: bool) returns (ok: bool, sent: Option<string>)
    ensures changes == [] ==> ok && sent == None
    ensures changes != [] ==> ok == delivered && sent == Some(Message(changes))
  {
    if changes == [] {
      return true, None;
    }
    var message := FormatChangesMessage(changes);
    return delivered, Some(message);
  }

  // ----- properties of the message -----

  /** Every detail with a value is shown as `key: value`, and nothing else is. */
  lemma {:induction false} DetailTextsFacts(details: seq<Detail>)
    ensures |DetailTexts(details)| <= |details|
    ensures forall i :: 0 <= i < |details| && details[i].value != "" ==> details[i].key + ": " + details[i].value in DetailTexts(details)
    ensures forall t :: t in DetailTexts(details) ==>
              exists i :: 0 <= i < |details| && details[i].value != "" && t == details[i].key + ": " + details[i].value
  {
    if details != [] {
      var init := details[..|details| - 1];
      DetailTextsFacts(init);
      assert forall i :: 0 <= i < |init| ==> init[i] == details[i];
    }
  }

  /** Details whose values are all empty add no line. */
  lemma {:induction false} EmptyDetailsAddNothing(details: seq<Detail>)
    requires forall i :: 0 <= i < |details| ==> details[i].value == ""
    ensures DetailLine(details) == []
  {
    if details != [] {
      EmptyDetailsAddNothing(details[..|details| - 1]);
    }
  }

  lemma BlocksAppend(changes: seq<Change>, c: Change)
    ensures Blocks(changes + [c]) == Blocks(changes) + Block(c)
  {
    assert (changes + [c])[..|changes|] == changes;
  }

  lemma MessagePartsStep(changes: seq<Change>, i: int)
    requires 0 <= i < |changes|
    ensures MessageParts(changes[..i + 1]) == MessageParts(changes[..i]) + Block(changes[i])
  {
    assert changes[..i + 1] == changes[..i] + [changes[i]];
    BlocksAppend(changes[..i], changes[i]);
  }

  /** Each event contributes exactly one empty part, its last. */
  lemma BlockHasOneBlank(c: Change)
    ensures BlankCount(Block(c)) == 1
  {
    var head, details := Headline(c), DetailLine(c.details);
    BlankCountAppend(head + details, [""]);
    BlankCountAppend(head, details);
    assert BlankCount(head) == 0 by {
      if |head| == 2 {
        assert head[..1] == [head[0]];
      }
    }
    assert BlankCount(details) == 0 by {
      if details != [] {
        assert details[..0] == [];
      }
    }
  }

  /** The parts after the title hold exactly one empty part per event. */
  lemma {:induction false} BlankPartsCountEvents(changes: seq<Change>)
    ensures BlankCount(Blocks(changes)) == |changes|
  {
    if changes != [] {
      var init := changes[..|changes| - 1];
      BlankPartsCountEvents(init);
      BlockHasOneBlank(changes[|changes| - 1]);
      BlankCountAppend(Blocks(init), Block(changes[|changes| - 1]));
    }
  }

  /** The message opens with the title; with at least one event, a newline follows it. */
  lemma MessageOpensWithTitle(changes: seq<Change>)
    ensures |Title| <= |Message(changes)| && Message(changes)[..|Title|] == Title
    ensures changes != [] ==> Message(changes)[..|Title| + 1] == Title + "\n"
  {
    var rest := Blocks(changes);
    var parts := MessageParts(changes);
    if rest == [] {
      assert parts == [Title];
    } else {
      assert parts[1..] == rest;
      assert Message(changes) == Title + "\n" + Join("\n", rest);
    }
    if changes != [] {
      BlankPartsCountEvents(changes);
      assert rest != [];
    }
  }

  /** The parts of each event, one sequence per event. */
  ghost function BlockList(changes: seq<Change>): (list: seq<seq<string>>)
    ensures |list| == |changes|
    ensures forall j :: 0 <= j < |changes| ==> list[j] == Block(changes[j])
  {
    seq(|changes|, j requires 0 <= j < |changes| => Block(changes[j]))
  }

  ghost function Flatten<T>(parts: seq<seq<T>>): seq<T> {
    if parts == [] then [] else Flatten(parts[..|parts| - 1]) + parts[|parts| - 1]
  }

  lemma {:induction false} BlocksFlatten(changes: seq<Change>)
    ensures Blocks(changes) == Flatten(BlockList(changes))
  {
    if changes != [] {
      var init := changes[..|changes| - 1];
      BlocksFlatten(init);
      assert BlockList(changes)[..|changes| - 1] == BlockList(init);
    }
  }

  lemma {:induction false} PartIsListed<T>(parts: seq<seq<T>>, i: nat)
    requires i < |parts|
    ensures |Flatten(parts[..i])| + |parts[i]| <= |Flatten(parts)|
    ensures Flatten(parts)[|Flatten(parts[..i])|..|Flatten(parts[..i])| + |parts[i]|] == parts[i]
  {
    var init := parts[..|parts| - 1];
    if i < |parts| - 1 {
      PartIsListed(init, i);
      assert init[..i] == parts[..i];
      SliceOfFront(Flatten(init), parts[|parts| - 1], |Flatten(parts[..i])|, |parts[i]|);
    } else {
      assert parts[..i] == init;
      SliceOfBack(Flatten(init), parts[i]);
    }
  }

  // Helpers of `PartIsListed`: slicing a concatenation inside its first or at its second operand.

  lemma SliceOfFront<T>(a: seq<T>, b: seq<T>, k: nat, n: nat)
    requires k + n <= |a|
    ensures (a + b)[k..k + n] == a[k..k + n]
  {
  }

  lemma SliceOfBack<T>(a: seq<T>, b: seq<T>)
    ensures (a + b)[|a|..|a| + |b|] == b
  {
  }

  /** The opening of the type line of an added, removed or modified event. */
  function KindPrefix(kind: ChangeKind): string
    requires !kind.Other?
  {
    match kind
    case Added => AddedPrefix
    case Removed => RemovedPrefix
    case Modified => ModifiedPrefix
  }

  /** Every added, removed or modified event is announced by a type line of its own, naming the server. */
  lemma EventIsAnnounced(changes: seq<Change>, i: nat)
    requires i < |changes| && !changes[i].kind.Other?
    ensures KindPrefix(changes[i].kind) + changes[i].serverName in MessageParts(changes)
  {
    var list := BlockList(changes);
    BlocksFlatten(changes);
    PartIsListed(list, i);
    var k := |Flatten(list[..i])|;
    OneTypeLine(changes[i]);
    assert list[i] == Block(changes[i]);
    assert Flatten(list)[k] == list[i][0];
    assert MessageParts(changes)[k + 1] == Flatten(list)[k];
  }

  /** A part that announces an event: it opens with the added, removed or modified prefix. */
  predicate IsTypeLine(part: string) {
    AddedPrefix <= part || RemovedPrefix <= part || ModifiedPrefix <= part
  }

  /** Every type prefix opens with `<`, so an empty or indented part is no type line. */
  lemma IndentedIsNotTypeLine(part: string)
    requires part == [] || part[0] == ' '
    ensures !IsTypeLine(part)
  {
    assert AddedPrefix[0] == '<' && RemovedPrefix[0] == '<' && ModifiedPrefix[0] == '<';
  }

  /** The details line, when present, is indented. */
  lemma DetailLineIndented(details: seq<Detail>, j: nat)
    requires j < |DetailLine(details)|
    ensures DetailLine(details)[j] != [] && DetailLine(details)[j][0] == ' '
  {
  }

  /**
   * An added, removed or modified event opens its parts with exactly one type line, naming
   * the server; none of its other parts is a type line.
   */
  lemma OneTypeLine(c: Change)
    requires !c.kind.Other?
    ensures |Block(c)| >= 2 && Block(c)[0] == KindPrefix(c.kind) + c.serverName
    ensures forall j :: 1 <= j < |Block(c)| ==> !IsTypeLine(Block(c)[j])
  {
    var h, d := Headline(c), DetailLine(c.details);
    var b := Block(c);
    assert b == h + d + [""];
    forall j | 1 <= j < |b|
      ensures !IsTypeLine(b[j])
    {
      if j < |h| {
        assert b[j] == h[j] && h[j][0] == ' ';
      } else if j < |h| + |d| {
        assert b[j] == d[j - |h|];
        DetailLineIndented(c.details, j - |h|);
      } else {
        assert b[j] == "";
      }
      IndentedIsNotTypeLine(b[j]);
    }
  }

  /** An event of an unknown type contributes only its details line, if any, and its empty part: no type line. */
  lemma OtherKindHasNoTypeLine(c: Change)
    requires c.kind.Other?
    ensures Block(c) == DetailLine(c.details) + [""]
    ensures forall j :: 0 <= j < |Block(c)| ==> !IsTypeLine(Block(c)[j])
  {
    var d := DetailLine(c.details);
    forall j | 0 <= j < |Block(c)|
      ensures !IsTypeLine(Block(c)[j])
    {
      if j < |d| {
        DetailLineIndented(c.details, j);
      }
      IndentedIsNotTypeLine(Block(c)[j]);
    }
  }

  /** The number of type lines among some parts. */
  function TypeLineCount(parts: seq<string>): nat {
    if parts == [] then 0 else TypeLineCount(parts[..|parts| - 1]) + (if IsTypeLine(parts[|parts| - 1]) then 1 else 0)
  }

  /** The number of added, removed or modified events. */
  function Announced(changes: seq<Change>): nat {
    if changes == [] then 0 else Announced(changes[..|changes| - 1]) + (if changes[|changes| - 1].kind.Other? then 0 else 1)
  }

  lemma {:induction false} TypeLineCountAppend(a: seq<string>, b: seq<string>)
    ensures TypeLineCount(a + b) == TypeLineCount(a) + TypeLineCount(b)
  {
    if b == [] {
      assert a + b == a;
    } else {
      assert (a + b)[..|a + b| - 1] == a + b[..|b| - 1];
      TypeLineCountAppend(a, b[..|b| - 1]);
    }
  }

  lemma {:induction false} NoTypeLines(parts: seq<string>)
    requires forall j :: 0 <= j < |parts| ==> !IsTypeLine(parts[j])
    ensures TypeLineCount(parts) == 0
  {
    if parts != [] {
      NoTypeLines(parts[..|parts| - 1]);
    }
  }

  /** One event's parts hold one type line, or none for an unknown type. */
  lemma BlockTypeLineCount(c: Change)
    ensures TypeLineCount(Block(c)) == if c.kind.Other? then 0 else 1
  {
    if c.kind.Other? {
      OtherKindHasNoTypeLine(c);
      NoTypeLines(Block(c));
    } else {
      OneTypeLine(c);
      assert KindPrefix(c.kind) <= Block(c)[0];
      OnlyFirstIsTypeLine(Block(c));
    }
  }

  lemma OnlyFirstIsTypeLine(parts: seq<string>)
    requires parts != [] && IsTypeLine(parts[0])
    requires forall j :: 1 <= j < |parts| ==> !IsTypeLine(parts[j])
    ensures TypeLineCount(parts) == 1
  {
    var rest := parts[1..];
    assert parts == [parts[0]] + rest;
    assert forall j :: 0 <= j < |rest| ==> rest[j] == parts[j + 1];
    NoTypeLines(rest);
    TypeLineCountAppend([parts[0]], rest);
    assert [parts[0]][..0] == [];
  }

  /** The title announces no event. */
  lemma TitleIsNotTypeLine()
    ensures !IsTypeLine(Title)
  {
    assert Title[3] == '\U{1F514}';
    assert AddedPrefix[3] == '\U{2795}' && RemovedPrefix[3] == '\U{2796}' && ModifiedPrefix[3] == '\U{270F}';
  }

  /** The parts after the title hold one type line per added, removed or modified event. */
  lemma {:induction false} BlocksTypeLines(changes: seq<Change>)
    ensures TypeLineCount(Blocks(changes)) == Announced(changes)
  {
    if changes != [] {
      var init, last := changes[..|changes| - 1], changes[|changes| - 1];
      BlocksTypeLines(init);
      BlockTypeLineCount(last);
      TypeLineCountAppend(Blocks(init), Block(last));
    }
  }

  /** The message holds exactly one type line per added, removed or modified event, and no other. */
  lemma TypeLinesCountEvents(changes: seq<Change>)
    ensures TypeLineCount(MessageParts(changes)) == Announced(changes)
  {
    BlocksTypeLines(changes);
    TitleIsNotTypeLine();
    NoTypeLines([Title]);
    TypeLineCountAppend([Title], Blocks(changes));
  }

  /** A modification with changed fields lists them, in order, on the line after its type line. */
  lemma ModifiedListsFields(c: Change)
    requires c.kind.Modified? && c.fieldsChanged != []
    ensures |Block(c)| >= 3
    ensures Block(c)[1] == "   <i>Changed fields: " + Join(", ", c.fieldsChanged) + "</i>"
  {
  }
}
