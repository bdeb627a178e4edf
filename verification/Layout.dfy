/**
 The format strings of `to_json` as data, printed with the agent's own helpers, and
 the proof that what they print is a JSON document.
 */
module Layout {
  import opened Prelude
  import opened Decimal
  import opened Json

  /** A float field: not finite, or the decimal text of its clamped value. */
  datatype F32 = NonFinite | Finite(token: string)

  /** What one `{}` of a format string is filled with. */
  datatype Cell =
    | Text(s: string)
    | OptText(o: Option<string>)
    | Number(n: nat)
    | OptNumber(on: Option<nat>)
    | Float(f: F32)
    | OptFloat(of: Option<F32>)
    | List(cells: seq<Cell>)
    | Nested(fields: seq<Field>)

  /** One `"key":{}` of a format string. */
  datatype Field = Field(key: string, cell: Cell)

  /** The keys of a format string, each with its argument. */
  function Fill(keys: seq<string>, cells: seq<Cell>): seq<Field> {
    if keys == [] || cells == [] then [] else [Field(keys[0], cells[0])] + Fill(keys[1..], cells[1..])
  }

  // ---- printing --------------------------------------------------------------------------------

  function OptionJson(v: Option<string>): string {
    if v.Some? then Quoted(v.value) else "null"
  }

  function OptionNumberJson(v: Option<nat>): string {
    if v.Some? then Digits(v.value) else "null"
  }

  function OptionF32Json(v: Option<F32>): string {
    if v.Some? && v.value.Finite? then v.value.token else "null"
  }

  function FiniteF32Json(v: F32): string {
    if v.Finite? then v.token else "0"
  }

  function CellText(c: Cell): string
    decreases c, 1
  {
    match c
    case Text(s) => Quoted(s)
    case OptText(o) => OptionJson(o)
    case Number(n) => Digits(n)
    case OptNumber(on) => OptionNumberJson(on)
    case Float(f) => FiniteF32Json(f)
    case OptFloat(of) => OptionF32Json(of)
    case List(cells) => "[" + JoinCells(cells) + "]"
    case Nested(fields) => "{" + JoinFields(fields) + "}"
  }

  /** `join(",")` over the printed cells. */
  function JoinCells(cells: seq<Cell>): string
    decreases cells, 0
  {
    if cells == [] then ""
    else CellText(cells[0]) + if |cells| == 1 then "" else "," + JoinCells(cells[1..])
  }

  /** `"k1":t1,"k2":t2,...`: every key is a lower-case word, which quoting leaves as it stands in the format string. */
  function JoinFields(fields: seq<Field>): string
    decreases fields, 0
  {
    if fields == [] then ""
    else
      Quoted(fields[0].key) + (":" + (CellText(fields[0].cell) + if |fields| == 1 then "" else "," + JoinFields(fields[1..])))
  }

  // ---- the document ----------------------------------------------------------------------------

  function CellTree(c: Cell): Json
    decreases c, 1
  {
    match c
    case Text(s) => JStr(s)
    case OptText(o) => if o.Some? then JStr(o.value) else JNull
    case Number(n) => JNum(Digits(n))
    case OptNumber(on) => if on.Some? then JNum(Digits(on.value)) else JNull
    case Float(f) => JNum(FiniteF32Json(f))
    case OptFloat(of) => if of.Some? && of.value.Finite? then JNum(of.value.token) else JNull
    case List(cells) => JArr(CellTrees(cells))
    case Nested(fields) => JObj(Members(fields))
  }

  function CellTrees(cells: seq<Cell>): (items: seq<Json>)
    ensures |items| == |cells|
    decreases cells, 0
  {
    if cells == [] then [] else [CellTree(cells[0])] + CellTrees(cells[1..])
  }

  function Members(fields: seq<Field>): (members: seq<Member>)
    ensures |members| == |fields|
    decreases fields, 0
  {
    if fields == [] then [] else [Member(fields[0].key, CellTree(fields[0].cell))] + Members(fields[1..])
  }

  // ---- the text is the document ----------------------------------------------------------------

  predicate IsToken(f: F32) {
    f.Finite? ==> IsNumber(f.token) && AllNumberChars(f.token)
  }

  /** Printed floats are number tokens. */
  predicate Fine(c: Cell)
    decreases c
  {
    match c
    case Float(f) => IsToken(f)
    case OptFloat(of) => of.Some? ==> IsToken(of.value)
    case List(cells) => forall i :: 0 <= i < |cells| ==> Fine(cells[i])
    case Nested(fields) => forall i :: 0 <= i < |fields| ==> Fine(fields[i].cell)
    case _ => true
  }

  /** The hand-written text is exactly the compact print of the document. */
  lemma {:induction false} CellPrints(c: Cell)
    requires Fine(c)
    ensures CellText(c) == Print(CellTree(c))
    decreases c, 1
  {
    match c {
      case List(cells) => CellsPrint(cells);
      case Nested(fields) => FieldsPrint(fields);
      case _ =>
    }
  }

  lemma {:induction false} CellsPrint(cells: seq<Cell>)
    requires forall i :: 0 <= i < |cells| ==> Fine(cells[i])
    ensures JoinCells(cells) == PrintItems(CellTrees(cells))
    decreases cells, 0
  {
    if cells != [] {
      CellPrints(cells[0]);
      CellsPrint(cells[1..]);
      assert CellTrees(cells)[1..] == CellTrees(cells[1..]);
    }
  }

  lemma {:induction false} FieldsPrint(fields: seq<Field>)
    requires forall i :: 0 <= i < |fields| ==> Fine(fields[i].cell)
    ensures JoinFields(fields) == PrintMembers(Members(fields))
    decreases fields, 0
  {
    if fields != [] {
      CellPrints(fields[0].cell);
      FieldsPrint(fields[1..]);
      assert Members(fields)[1..] == Members(fields[1..]);
    }
  }

  lemma {:induction false} TreesWellFormed(c: Cell)
    requires Fine(c)
    ensures WellFormed(CellTree(c))
    decreases c, 1
  {
    match c {
      case Number(n) => DigitsAreNumber(n);
      case OptNumber(on) => if on.Some? { DigitsAreNumber(on.value); }
      case Float(f) => assert IsNumber("0") && AllNumberChars("0");
      case List(cells) => ItemsWellFormed(cells);
      case Nested(fields) => MembersWellFormed(fields);
      case _ =>
    }
  }

  lemma {:induction false} ItemsWellFormed(cells: seq<Cell>)
    requires forall i :: 0 <= i < |cells| ==> Fine(cells[i])
    ensures forall i :: 0 <= i < |cells| ==> WellFormed(CellTrees(cells)[i])
    decreases cells, 0
  {
    if cells != [] {
      TreesWellFormed(cells[0]);
      ItemsWellFormed(cells[1..]);
    }
  }

  lemma {:induction false} MembersWellFormed(fields: seq<Field>)
    requires forall i :: 0 <= i < |fields| ==> Fine(fields[i].cell)
    ensures forall i :: 0 <= i < |fields| ==> WellFormed(Members(fields)[i].value)
    decreases fields, 0
  {
    if fields != [] {
      TreesWellFormed(fields[0].cell);
      MembersWellFormed(fields[1..]);
    }
  }

  /** An object's text, followed by anything, is read back as the object and the anything. */
  lemma LayoutReadsBack(fields: seq<Field>, rest: string)
    requires Fine(Nested(fields))
    ensures Read(CellText(Nested(fields)) + rest) == Some((JObj(Members(fields)), rest))
  {
    FieldsPrint(fields);
    MembersWellFormed(fields);
    ObjectsReadBack(Members(fields), rest);
  }

  // ---- no control characters ---------------------------------------------------------------------

  /** No control character, so no newline. */
  predicate OneLine(s: string) {
    forall i :: 0 <= i < |s| ==> s[i] >= ' '
  }

  lemma {:induction false} EscapeIsOneLine(s: string)
    ensures OneLine(Escape(s))
  {
    if s != "" {
      EscapeIsOneLine(s[1..]);
      assert OneLine(EscapeChar(s[0]));
    }
  }

  lemma QuotedIsOneLine(s: string)
    ensures OneLine(Quoted(s))
  {
    EscapeIsOneLine(s);
  }

  lemma DigitsAreOneLine(n: nat)
    ensures OneLine(Digits(n))
  {
    assert AllDigits(Digits(n));
  }

  lemma {:induction false} TextIsOneLine(c: Cell)
    requires Fine(c)
    ensures OneLine(CellText(c))
    decreases c, 1
  {
    match c {
      case Text(s) => QuotedIsOneLine(s);
      case OptText(o) => if o.Some? { QuotedIsOneLine(o.value); }
      case Number(n) => DigitsAreOneLine(n);
      case OptNumber(on) => if on.Some? { DigitsAreOneLine(on.value); }
      case List(cells) => CellsAreOneLine(cells);
      case Nested(fields) => FieldsAreOneLine(fields);
      case _ =>
    }
  }

  lemma {:induction false} CellsAreOneLine(cells: seq<Cell>)
    requires forall i :: 0 <= i < |cells| ==> Fine(cells[i])
    ensures OneLine(JoinCells(cells))
    decreases cells, 0
  {
    if cells != [] {
      TextIsOneLine(cells[0]);
      CellsAreOneLine(cells[1..]);
    }
  }

  lemma {:induction false} FieldsAreOneLine(fields: seq<Field>)
    requires forall i :: 0 <= i < |fields| ==> Fine(fields[i].cell)
    ensures OneLine(JoinFields(fields))
    decreases fields, 0
  {
    if fields != [] {
      TextIsOneLine(fields[0].cell);
      FieldsAreOneLine(fields[1..]);
      QuotedIsOneLine(fields[0].key);
    }
  }
}
