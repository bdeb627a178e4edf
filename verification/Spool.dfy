/** The JSONL spool: one event per line, appended, and what splitting the file on newlines recovers. */
module Spool {
  import opened Prelude
  import opened Json
  import opened Layout
  import opened Event
  import opened EventDecode
  import opened JsonTorn

  /** Each text ended by a newline. */
  function Framed(lines: seq<string>): string {
    if lines == [] then "" else lines[0] + "\n" + Framed(lines[1..])
  }

  function Texts(events: seq<Event>): (lines: seq<string>)
    ensures |lines| == |events|
  {
    if events == [] then [] else [ToJson(events[0])] + Texts(events[1..])
  }

  lemma {:induction false} TextsAt(events: seq<Event>, i: nat)
    requires i < |events|
    ensures Texts(events)[i] == ToJson(events[i])
  {
    if i > 0 {
      TextsAt(events[1..], i - 1);
    }
  }

  /** What the file system does with one append: all of it, nothing, or only the first `kept` characters. */
  datatype Disk = Written | Unopened | Torn(kept: nat)

  function Kept(line: string, disk: Disk): string {
    match disk
    case Written => line
    case Unopened => ""
    case Torn(kept) => line[..Min(kept, |line|)]
  }

  /** The index from `i` on of the first append that fails, or how many there are. */
  function FirstFailure(disk: seq<Disk>, i: nat): (n: nat)
    requires i <= |disk|
    ensures i <= n <= |disk| && (forall k :: i <= k < n ==> disk[k].Written?) && (n < |disk| ==> !disk[n].Written?)
    decreases |disk| - i
  {
    if i < |disk| && disk[i].Written? then FirstFailure(disk, i + 1) else i
  }

  /** The first `n` lines, and what the file system kept of the next one. */
  function Stored(lines: seq<string>, n: nat, disk: seq<Disk>): string
    requires n <= |lines| == |disk|
  {
    Framed(lines[..n]) + if n < |lines| then Kept(lines[n] + "\n", disk[n]) else ""
  }

  class JsonlSpool {
    var text: string

    constructor ()
      ensures text == ""
    {
      text := "";
    }

    method Append(event: Event, disk: Disk) returns (ok: bool)
      modifies this
      ensures ok == disk.Written?
      ensures text == old(text) + Kept(ToJson(event) + "\n", disk)
    {
      text := text + Kept(ToJson(event) + "\n", disk);
      ok := disk.Written?;
    }

    /**
     The spooling loop of `collect_and_emit`: every line is stored, or the lines before
     the first failed append and the kept part of the failed one.
     */
    method AppendAll(events: seq<Event>, disk: seq<Disk>) returns (ok: bool, stored: nat)
      requires |disk| == |events|
      modifies this
      ensures stored == FirstFailure(disk, 0) && ok == (stored == |events|)
      ensures text == old(text) + Stored(Texts(events), stored, disk)
    {
      ghost var lines, start := Texts(events), text;
      for i := 0 to |events|
        invariant FirstFailure(disk, 0) == FirstFailure(disk, i)
        invariant text == start + Framed(lines[..i])
      {
        TextsAt(events, i);
        StoreNext(start, lines, i, disk);
        ok := Append(events[i], disk[i]);
        if !ok {
          return false, i;
        }
      }
      ok, stored := true, |events|;
      assert start + Framed(lines) == start + (Framed(lines) + "");
    }
  }

  lemma {:induction false} FramedAppend(a: seq<string>, b: seq<string>)
    ensures Framed(a + b) == Framed(a) + Framed(b)
  {
    if a == [] {
      assert a + b == b;
    } else {
      FramedAppend(a[1..], b);
      assert (a + b)[0] == a[0] && (a + b)[1..] == a[1..] + b;
      ConcatAssociates(a[0] + "\n", Framed(a[1..]), Framed(b));
    }
  }

  lemma FramedNext(lines: seq<string>, i: nat)
    requires i < |lines|
    ensures Framed(lines[..i + 1]) == Framed(lines[..i]) + (lines[i] + "\n")
  {
    assert lines[..i + 1] == lines[..i] + [lines[i]];
    FramedAppend(lines[..i], [lines[i]]);
    assert Framed([lines[i]]) == lines[i] + "\n" + Framed([]);
  }

  lemma StoreNext(start: string, lines: seq<string>, i: nat, disk: seq<Disk>)
    requires i < |lines| == |disk|
    ensures start + Framed(lines[..i]) + Kept(lines[i] + "\n", disk[i]) == start + Stored(lines, i, disk)
    ensures disk[i].Written? ==> start + Stored(lines, i, disk) == start + Framed(lines[..i + 1])
  {
    FramedNext(lines, i);
  }

  // ---- splitting on newlines -------------------------------------------------------------------

  function Split(text: string): (pieces: seq<string>)
    ensures |pieces| > 0
  {
    if text == "" then [""]
    else
      var more := Split(text[1..]);
      if text[0] == '\n' then [""] + more else [[text[0]] + more[0]] + more[1..]
  }

  lemma {:induction false} SplitAtNewline(line: string, rest: string)
    requires OneLine(line)
    ensures Split(line + "\n" + rest) == [line] + Split(rest)
  {
    var s := line + "\n" + rest;
    if line == "" {
      assert s[0] == '\n' && s[1..] == rest;
    } else {
      SplitAtNewline(line[1..], rest);
      assert s[0] == line[0] && s[0] != '\n' && s[1..] == line[1..] + "\n" + rest;
      assert [line[0]] + line[1..] == line;
    }
  }

  /** Splitting gives back each framed line in order, then the pieces of whatever follows. */
  lemma {:induction false} SplitFramed(lines: seq<string>, tail: string)
    requires forall i :: 0 <= i < |lines| ==> OneLine(lines[i])
    ensures Split(Framed(lines) + tail) == lines + Split(tail)
  {
    if lines == [] {
      assert Framed(lines) + tail == tail;
    } else {
      SplitFramed(lines[1..], tail);
      assert Framed(lines) + tail == lines[0] + "\n" + (Framed(lines[1..]) + tail);
      SplitAtNewline(lines[0], Framed(lines[1..]) + tail);
      assert lines == [lines[0]] + lines[1..];
    }
  }

  predicate AllTokens(events: seq<Event>) {
    forall i :: 0 <= i < |events| ==> Tokens(events[i].payload)
  }

  lemma {:induction false} TextsAreLines(events: seq<Event>)
    requires AllTokens(events)
    ensures forall i :: 0 <= i < |events| ==> OneLine(Texts(events)[i])
  {
    if events != [] {
      EventIsOneLine(events[0]);
      TextsAreLines(events[1..]);
    }
  }

  /** A line that is one whole document. */
  function DecodeLine(line: string): Option<Event> {
    var r := Read(line);
    if r.Some? && r.value.1 == "" then DecodeEvent(r.value.0) else None
  }

  lemma LineDecodes(e: Event)
    requires Tokens(e.payload)
    ensures DecodeLine(ToJson(e)) == Some(Seen(e))
  {
    EventsReadBack(e, "");
    assert ToJson(e) + "" == ToJson(e);
  }

  /** What `read` makes of each line, without the lines it makes nothing of. */
  function ReadLines<T>(read: string -> Option<T>, lines: seq<string>): seq<T> {
    if lines == [] then []
    else (if read(lines[0]).Some? then [read(lines[0]).value] else []) + ReadLines(read, lines[1..])
  }

  /** The events among the lines of a file, in order. */
  function Decoded(lines: seq<string>): seq<Event> {
    ReadLines(DecodeLine, lines)
  }

  function SeenAll(events: seq<Event>): (seen: seq<Event>)
    ensures |seen| == |events|
  {
    if events == [] then [] else [Seen(events[0])] + SeenAll(events[1..])
  }

  lemma {:induction false} ReadConcat<T>(read: string -> Option<T>, a: seq<string>, b: seq<string>)
    ensures ReadLines(read, a + b) == ReadLines(read, a) + ReadLines(read, b)
  {
    if a == [] {
      assert a + b == b;
    } else {
      ReadConcat(read, a[1..], b);
      var head := if read(a[0]).Some? then [read(a[0]).value] else [];
      assert (a + b)[0] == a[0] && (a + b)[1..] == a[1..] + b;
      assert ReadLines(read, a + b) == head + ReadLines(read, a[1..] + b);
      ConcatAssociates(head, ReadLines(read, a[1..]), ReadLines(read, b));
    }
  }

  lemma ReadOne<T>(read: string -> Option<T>, line: string)
    ensures ReadLines(read, [line]) == if read(line).Some? then [read(line).value] else []
  {
    assert [line][1..] == [];
  }

  lemma {:induction false} TextsDecode(events: seq<Event>)
    requires AllTokens(events)
    ensures Decoded(Texts(events)) == SeenAll(events)
  {
    if events != [] {
      TextsDecode(events[1..]);
      LineDecodes(events[0]);
      ReadOne(DecodeLine, ToJson(events[0]));
      ReadConcat(DecodeLine, [ToJson(events[0])], Texts(events[1..]));
    }
  }

  lemma TextIsWhole(e: Event)
    requires Tokens(e.payload)
    ensures var s := ToJson(e); |s| > 0 && s[0] == '{' && Read(s).Some? && Read(s).value.1 == ""
  {
    EventsReadBack(e, "");
    assert ToJson(e) + "" == ToJson(e);
    NestedOpens(EventFields(e));
  }

  lemma NestedOpens(fields: seq<Field>)
    ensures var s := CellText(Nested(fields)); |s| > 0 && s[0] == '{'
  {
  }

  /** Whatever follows them in the file, the appended events are its first lines and the first read back, in order. */
  lemma SpoolRecoversEvents(events: seq<Event>, tail: string)
    requires AllTokens(events)
    ensures Split(Framed(Texts(events)) + tail) == Texts(events) + Split(tail)
    ensures Decoded(Split(Framed(Texts(events)) + tail)) == SeenAll(events) + Decoded(Split(tail))
  {
    TextsAreLines(events);
    SplitFramed(Texts(events), tail);
    TextsDecode(events);
    ReadConcat(DecodeLine, Texts(events), Split(tail));
  }

  /** Without a tail, exactly the appended events. */
  lemma SpoolIsItsEvents(events: seq<Event>)
    requires AllTokens(events)
    ensures Decoded(Split(Framed(Texts(events)))) == SeenAll(events)
  {
    SpoolRecoversEvents(events, "");
    assert Framed(Texts(events)) + "" == Framed(Texts(events)) && Split("") == [""];
    EmptyLineIsNoEvent();
    ReadOne(DecodeLine, "");
  }

  lemma EmptyLineIsNoEvent()
    ensures DecodeLine("") == None
  {
    assert SkipWs("") == "";
  }

  lemma NestedKey(fields: seq<Field>)
    requires fields != [] && fields[0].key != "" && 'a' <= fields[0].key[0] <= 'z'
    ensures var s := CellText(Nested(fields)); |s| >= 3 && s[1] == '"' && s[2] == fields[0].key[0]
  {
    var key := fields[0].key;
    assert EscapeChar(key[0]) == [key[0]];
    assert Escape(key)[0] == key[0];
    assert JoinFields(fields)[0] == '"' && JoinFields(fields)[1] == key[0];
  }

  lemma FirstField(e: Event)
    ensures EventFields(e) != [] && EventFields(e)[0].key != "" && EventFields(e)[0].key[0] == 's'
  {
    assert EnvelopeKeys()[0] == "schema_version";
  }

  lemma TextIsNextObject(e: Event)
    requires Tokens(e.payload)
    ensures NextObject(ToJson(e))
  {
    TextIsWhole(e);
    FirstField(e);
    NestedKey(EventFields(e));
  }

  /** A cut-off object, whatever follows, is not a document. */
  lemma CutLayoutIsStuck(fields: seq<Field>, n: nat, t: string)
    requires Fine(Nested(fields)) && Follows(t) && 0 < n < |CellText(Nested(fields))|
    ensures Read(CellText(Nested(fields))[..n] + t) == None
  {
    FieldsPrint(fields);
    MembersWellFormed(fields);
    CutObject(Members(fields), n, t);
  }

  /** A torn line never passes for an event. */
  lemma TornLineIsDetected(e: Event, n: nat)
    requires Tokens(e.payload) && n < |ToJson(e)|
    ensures DecodeLine(ToJson(e)[..n]) == None
  {
    if n == 0 {
      EmptyLineIsNoEvent();
    } else {
      EventFine(e);
      CutLayoutIsStuck(EventFields(e), n, "");
      assert ToJson(e)[..n] + "" == ToJson(e)[..n];
    }
  }

  /** The line in which a torn event and the next one run together never passes for an event. */
  lemma MergedLineIsDetected(e: Event, n: nat, next: Event)
    requires Tokens(e.payload) && Tokens(next.payload) && 0 < n <= |ToJson(e)|
    ensures DecodeLine(ToJson(e)[..n] + ToJson(next)) == None
  {
    TextIsNextObject(next);
    if n == |ToJson(e)| {
      assert ToJson(e)[..n] == ToJson(e);
      EventsReadBack(e, ToJson(next));
    } else {
      EventFine(e);
      CutLayoutIsStuck(EventFields(e), n, ToJson(next));
    }
  }

  /** A torn append loses at most the next event: the lines before it and the lines after that one are intact. */
  lemma TornAppendIsLocal(before: seq<Event>, torn: string, next: Event, after: seq<Event>)
    requires AllTokens(before) && AllTokens(after) && Tokens(next.payload) && OneLine(torn)
    ensures Split(TornFile(before, torn, next, after)) == Texts(before) + ([torn + ToJson(next)] + (Texts(after) + [""]))
  {
    TextsAreLines(after);
    TextsAreLines(before);
    EventIsOneLine(next);
    SplitFramed(Texts(after), "");
    assert Framed(Texts(after)) + "" == Framed(Texts(after));
    SplitAtNewline(torn + ToJson(next), Framed(Texts(after)));
    SplitFramed(Texts(before), torn + ToJson(next) + "\n" + Framed(Texts(after)));
  }

  /** The file after some appends, one that left only `torn`, one more, and others. */
  function TornFile(before: seq<Event>, torn: string, next: Event, after: seq<Event>): string {
    Framed(Texts(before)) + (torn + ToJson(next) + "\n" + Framed(Texts(after)))
  }

  /** A torn spool yields exactly the events appended before the torn one and after the one it ran into. */
  lemma TornSpoolYieldsOnlyAppended(before: seq<Event>, e: Event, n: nat, next: Event, after: seq<Event>)
    requires AllTokens(before) && AllTokens(after) && Tokens(e.payload) && Tokens(next.payload) && 0 < n <= |ToJson(e)|
    ensures Decoded(Split(TornFile(before, ToJson(e)[..n], next, after))) == SeenAll(before) + SeenAll(after)
  {
    EventIsOneLine(e);
    TornAppendIsLocal(before, ToJson(e)[..n], next, after);
    MergedLineIsDetected(e, n, next);
    TextsDecode(before);
    TextsDecode(after);
    PiecesDecode(Texts(before), ToJson(e)[..n] + ToJson(next), Texts(after));
  }

  lemma PiecesDecode(a: seq<string>, merged: string, c: seq<string>)
    requires DecodeLine(merged) == None
    ensures Decoded(a + ([merged] + (c + [""]))) == Decoded(a) + Decoded(c)
  {
    EmptyLineIsNoEvent();
    SkipTwo(DecodeLine, a, merged, c, "");
  }

  lemma SkipTwo<T>(read: string -> Option<T>, a: seq<string>, x: string, c: seq<string>, y: string)
    requires read(x) == None && read(y) == None
    ensures ReadLines(read, a + ([x] + (c + [y]))) == ReadLines(read, a) + ReadLines(read, c)
  {
    ReadConcat(read, a, [x] + (c + [y]));
    ReadConcat(read, [x], c + [y]);
    ReadConcat(read, c, [y]);
    ReadOne(read, x);
    ReadOne(read, y);
  }
}
