/**
 The slot assignment file (tdma-slot-assignment-parser.cc): one whitespace-separated word per node,
 the node id, a colon, and a 0 or 1 for every slot with commas between.
 */
module SlotFile {
  import opened Wrappers
  import opened SlotTable

  datatype Parsed =
    | Ok(rows: Table, numCols: nat)
    | BadField
    | NotDivisible
    | NoRows

  // ---------------------------------------------------------------- characters and words

  predicate Space(c: char) {
    c == ' ' || '\t' <= c <= '\r'
  }

  predicate Digit(c: char) {
    '0' <= c <= '9'
  }

  predicate Digits(s: string) {
    forall i :: 0 <= i < |s| ==> Digit(s[i])
  }

  function SkipSpace(s: string): (r: string)
    ensures |r| <= |s| && (r != "" ==> !Space(r[0]))
  {
    if s != "" && Space(s[0]) then SkipSpace(s[1..]) else s
  }

  /** The first word of `s`. */
  function Word(s: string): (r: string)
    ensures |r| <= |s| && (s != "" && !Space(s[0]) ==> r != "")
  {
    if s == "" || Space(s[0]) then "" else [s[0]] + Word(s[1..])
  }

  /** Position of the first `c`, or the length without one. */
  function Position(s: string, c: char): (r: nat)
    ensures r <= |s| && (forall i :: 0 <= i < r ==> s[i] != c) && (r < |s| ==> s[r] == c)
  {
    if s == "" || s[0] == c then 0 else 1 + Position(s[1..], c)
  }

  function IdOf(word: string): string {
    word[..Position(word, ':')]
  }

  /** find of the standard library, -1 without a comma. */
  function Find(s: string): (r: int)
    ensures -1 <= r < |s|
  {
    var p := Position(s, ',');
    if p == |s| then -1 else p
  }

  function Leading(s: string): (r: string)
    ensures Digits(r)
  {
    if s == "" || !Digit(s[0]) then "" else [s[0]] + Leading(s[1..])
  }

  function Number(s: string): nat
    requires Digits(s)
  {
    if s == "" then 0 else Number(s[..|s| - 1]) * 10 + (s[|s| - 1] - '0') as nat
  }

  /** atoi into an unsigned 32-bit element: optional sign, leading digits. */
  function Atoi(s: string): nat {
    if s != "" && s[0] == '-' then -(Number(Leading(s[1..])) as int) % 0x1_0000_0000
    else if s != "" && s[0] == '+' then Number(Leading(s[1..])) % 0x1_0000_0000
    else Number(Leading(s)) % 0x1_0000_0000
  }

  // ---------------------------------------------------------------- the parser

  predicate Bit(s: string) {
    s == "0" || s == "1"
  }

  /** The fields of a line after those already in `word`; None is the failed assertion. */
  function Fields(line: string, word: seq<nat>): (r: Option<seq<nat>>)
    ensures r.Some? ==> |word| < |r.value|
    decreases |line|
  {
    var p := Find(line);
    if p > 0 then
      if Bit(line[..p]) then Fields(line[p + 1..], word + [Atoi(line[..p])]) else None
    else if Bit(line) then Some(word + [Atoi(line)]) else None
  }

  /** What is left of a word when its id and the colon are erased. */
  function AfterId(word: string): string {
    var p := Position(word, ':');
    if p < |word| then word[p + 1..] else ""
  }

  function Row(word: string): (r: Option<seq<nat>>)
    ensures r.Some? ==> 0 < |r.value|
  {
    Fields(AfterId(word), [Atoi(IdOf(word))])
  }

  function FieldCount(rows: Table): nat
    requires HaveIds(rows)
  {
    if rows == [] then 0 else FieldCount(rows[..|rows| - 1]) + |rows[|rows| - 1]| - 1
  }

  predicate HaveIds(rows: Table) {
    forall i :: 0 <= i < |rows| ==> 0 < |rows[i]|
  }

  /** The checks after the last row; with no row at all the modulus is zero. */
  function Finish(rows: Table): Parsed
    requires HaveIds(rows)
  {
    if rows == [] then NoRows
    else if FieldCount(rows) % |rows| != 0 then NotDivisible
    else Ok(rows, FieldCount(rows) / |rows|)
  }

  /** A word without an id ends the input, whatever follows it. */
  function ParseFrom(text: string, rows: Table): Parsed
    requires HaveIds(rows)
    decreases |text|
  {
    var t := SkipSpace(text);
    if IdOf(Word(t)) == "" then Finish(rows)
    else
      match Row(Word(t))
      case None => BadField
      case Some(r) => ParseFrom(t[|Word(t)|..], rows + [r])
  }

  class TdmaSlotAssignmentFileParser {
    var numRows: nat
    var numCols: nat
    var slotArray: Table

    constructor ()
      ensures numRows == 0 && numCols == 0 && slotArray == []
    {
      numRows, numCols, slotArray := 0, 0, [];
    }

    /** The inner loop: fields up to the last comma, then the rest of the line. */
    method ParseLine(nodeId: string, rest: string) returns (word: seq<nat>, bad: bool)
      modifies `numCols
      ensures Fields(rest, [Atoi(nodeId)]) == if bad then None else Some(word)
      ensures !bad ==> 0 < |word| && numCols == old(numCols) + |word| - 1
    {
      hide Atoi;
      var line := rest;
      word := [Atoi(nodeId)];
      bad := false;
      var pos := Find(line);
      while pos > 0
        invariant pos == Find(line) && 0 < |word| && numCols == old(numCols) + |word| - 1 && !bad
        invariant Fields(rest, [Atoi(nodeId)]) == Fields(line, word)
        decreases |line|
      {
        var field := line[..pos];
        if !Bit(field) {
          bad := true;
          return;
        }
        line := line[pos + 1..];
        word := word + [Atoi(field)];
        numCols := numCols + 1;
        pos := Find(line);
      }
      if !Bit(line) {
        bad := true;
        return;
      }
      word := word + [Atoi(line)];
      numCols := numCols + 1;
    }

    /** Reads the whole file. A file that cannot be opened reads as an empty one. */
    method ParseTdmaSlotInformation(text: string) returns (r: Parsed)
      requires numRows == 0 && numCols == 0 && slotArray == []
      modifies this
      ensures r == ParseFrom(text, [])
      ensures r.Ok? ==> r.rows == slotArray && numRows == |slotArray| && numCols == r.numCols
    {
      hide Atoi, Fields, Word;
      var rest := text;
      var eof := false;
      while !eof
        invariant HaveIds(slotArray) && numRows == |slotArray| && numCols == FieldCount(slotArray)
        invariant ParseFrom(text, []) == ParseFrom(rest, slotArray) && (eof ==> rest == "")
        decreases |rest|, !eof
      {
        var t := SkipSpace(rest);
        var line := Word(t);
        var nodeId := IdOf(line);
        if nodeId == "" {
          break;
        }
        numRows := numRows + 1;
        ghost var before := numCols;
        var word, bad := ParseLine(nodeId, AfterId(line));
        if bad {
          return BadField;
        }
        assert slotArray == (slotArray + [word])[..|slotArray|];
        slotArray := slotArray + [word];
        rest := t[|line|..];
        eof := rest == "";
      }
      assert ParseFrom(text, []) == Finish(slotArray);
      if numRows == 0 {
        return NoRows;
      }
      if numCols % numRows != 0 {
        return NotDivisible;
      }
      numCols := numCols / numRows;
      return Ok(slotArray, numCols);
    }
  }

  // ---------------------------------------------------------------- printing

  function Show(n: nat): string {
    if n < 10 then ['0' + n as char] else Show(n / 10) + ['0' + (n % 10) as char]
  }

  function ShowFields(bits: seq<nat>): string
    requires bits != []
  {
    if |bits| == 1 then Show(bits[0]) else Show(bits[0]) + "," + ShowFields(bits[1..])
  }

  function Line(row: seq<nat>): string
    requires 2 <= |row|
  {
    Show(row[0]) + ":" + ShowFields(row[1..])
  }

  /** A node id that fits an int, and at least one slot, each 0 or 1. */
  predicate RowShape(row: seq<nat>) {
    2 <= |row| && row[0] < 0x8000_0000 && forall j :: 1 <= j < |row| ==> row[j] <= 1
  }

  predicate Printable(rows: Table) {
    forall i :: 0 <= i < |rows| ==> RowShape(rows[i])
  }

  function Print(rows: Table): string
    requires Printable(rows)
  {
    if rows == [] then "" else Line(rows[0]) + "\n" + Print(rows[1..])
  }

  predicate Rectangular(rows: Table, cols: nat) {
    forall i :: 0 <= i < |rows| ==> |rows[i]| == cols + 1
  }

  // ---------------------------------------------------------------- parsing what was printed

  lemma {:induction false} ShowNumber(n: nat)
    ensures Digits(Show(n)) && Show(n) != "" && Number(Show(n)) == n
  {
    if n < 10 {
      assert Number("") == 0;
      assert Show(n)[..0] == "";
    } else {
      ShowNumber(n / 10);
      assert Show(n)[..|Show(n)| - 1] == Show(n / 10);
    }
  }

  lemma {:induction false} LeadingDigits(s: string)
    requires Digits(s)
    ensures Leading(s) == s
  {
    if s != "" {
      LeadingDigits(s[1..]);
      assert [s[0]] + s[1..] == s;
    }
  }

  lemma AtoiShow(n: nat)
    requires n < 0x1_0000_0000
    ensures Atoi(Show(n)) == n
  {
    ShowNumber(n);
    LeadingDigits(Show(n));
    assert Digit(Show(n)[0]);
  }

  lemma {:induction false} PositionAfter(a: string, c: char, b: string)
    requires forall i :: 0 <= i < |a| ==> a[i] != c
    ensures Position(a + [c] + b, c) == |a|
  {
    var s := a + [c] + b;
    assert s[|a|] == c && forall i :: 0 <= i < |a| ==> s[i] == a[i];
  }

  lemma {:induction false} WordBefore(a: string, b: string)
    requires (forall i :: 0 <= i < |a| ==> !Space(a[i])) && (b == "" || Space(b[0]))
    ensures Word(a + b) == a
  {
    if a == "" {
      assert a + b == b;
    } else {
      assert (a + b)[1..] == a[1..] + b;
      WordBefore(a[1..], b);
      assert [a[0]] + a[1..] == a;
    }
  }

  lemma BitShown(b: nat)
    requires b <= 1
    ensures Show(b) == if b == 0 then "0" else "1"
  {
  }

  lemma CommaStep(b: string, rest: string, word: seq<nat>)
    requires Bit(b)
    ensures Fields(b + "," + rest, word) == Fields(rest, word + [Atoi(b)])
  {
    hide Atoi;
    PositionAfter(b, ',', rest);
    assert (b + "," + rest)[..1] == b && (b + "," + rest)[2..] == rest;
  }

  lemma LastField(b: string, word: seq<nat>)
    requires Bit(b)
    ensures Fields(b, word) == Some(word + [Atoi(b)])
  {
    hide Atoi;
    assert Position(b, ',') == 1;
  }

  lemma {:induction false} FieldsShown(bits: seq<nat>, word: seq<nat>)
    requires bits != [] && forall j :: 0 <= j < |bits| ==> bits[j] <= 1
    ensures Fields(ShowFields(bits), word) == Some(word + bits)
  {
    hide Atoi, Show, Fields;
    BitShown(bits[0]);
    AtoiShow(bits[0]);
    if |bits| == 1 {
      LastField(Show(bits[0]), word);
      assert bits == [bits[0]];
    } else {
      CommaStep(Show(bits[0]), ShowFields(bits[1..]), word);
      FieldsShown(bits[1..], word + [bits[0]]);
      assert word + [bits[0]] + bits[1..] == word + bits;
    }
  }

  lemma RowOfLine(row: seq<nat>)
    requires RowShape(row)
    ensures IdOf(Line(row)) != "" && Row(Line(row)) == Some(row)
  {
    hide Atoi, Fields, ShowFields;
    var id := Show(row[0]);
    ShowNumber(row[0]);
    AtoiShow(row[0]);
    assert forall i :: 0 <= i < |id| ==> Digit(id[i]);
    PositionAfter(id, ':', ShowFields(row[1..]));
    assert Line(row)[|id| + 1..] == ShowFields(row[1..]) && Line(row)[..|id|] == id;
    FieldsShown(row[1..], [row[0]]);
    assert [row[0]] + row[1..] == row;
  }

  predicate Solid(s: string) {
    s != "" && forall i :: 0 <= i < |s| ==> !Space(s[i])
  }

  lemma {:induction false} FieldsSolid(bits: seq<nat>)
    requires bits != [] && forall j :: 0 <= j < |bits| ==> bits[j] <= 1
    ensures Solid(ShowFields(bits))
  {
    if |bits| > 1 {
      FieldsSolid(bits[1..]);
    }
  }

  lemma LineSolid(row: seq<nat>)
    requires RowShape(row)
    ensures Solid(Line(row))
  {
    ShowNumber(row[0]);
    assert forall i :: 0 <= i < |Show(row[0])| ==> Digit(Show(row[0])[i]);
    FieldsSolid(row[1..]);
  }

  lemma ParseWord(word: string, rest: string, done: Table)
    requires Solid(word) && IdOf(word) != "" && Row(word).Some? && HaveIds(done)
    ensures ParseFrom(word + "\n" + rest, done) == ParseFrom(rest, done + [Row(word).value])
  {
    hide Row, IdOf;
    var text, more := word + "\n" + rest, "\n" + rest;
    assert text == word + more && SkipSpace(text) == text;
    WordBefore(word, more);
    assert text[|word|..] == more && more[1..] == rest;
    assert SkipSpace(more) == SkipSpace(rest);
  }

  lemma {:induction false} ParsePrinted(rows: Table, done: Table)
    requires Printable(rows) && HaveIds(done)
    ensures HaveIds(done + rows) && ParseFrom(Print(rows), done) == Finish(done + rows)
    decreases |rows|
  {
    hide Row, IdOf, Line, Finish;
    if rows == [] {
      NoId();
      assert done + rows == done;
    } else {
      hide ParseFrom;
      RowOfLine(rows[0]);
      LineSolid(rows[0]);
      ParseWord(Line(rows[0]), Print(rows[1..]), done);
      ParsePrinted(rows[1..], done + [rows[0]]);
      assert done + [rows[0]] + rows[1..] == done + rows;
    }
  }

  lemma NoId()
    ensures IdOf("") == ""
  {
  }

  lemma {:induction false} RectangularCount(rows: Table, cols: nat)
    requires Rectangular(rows, cols)
    ensures FieldCount(rows) == |rows| * cols
  {
    if rows != [] {
      RectangularCount(rows[..|rows| - 1], cols);
    }
  }

  /** Round trip: every non-empty rectangular table is read back as it was, with its size. */
  lemma RoundTrip(rows: Table, cols: nat)
    requires rows != [] && Printable(rows) && Rectangular(rows, cols)
    ensures ParseFrom(Print(rows), []) == Ok(rows, cols)
  {
    ParsePrinted(rows, []);
    assert [] + rows == rows;
    RectangularCount(rows, cols);
    Exact(|rows|, cols);
  }

  lemma Exact(n: nat, k: nat)
    requires 0 < n
    ensures n * k % n == 0 && n * k / n == k
  {
    var d, r := k - n * k / n, n * k % n;
    assert n * k == n * (n * k / n) + r;
    assert n * d == r;
    Multiple(n, d);
  }

  lemma Multiple(n: nat, d: int)
    ensures d >= 1 ==> n * d >= n
    ensures d <= -1 ==> n * d <= 0 - n
  {
    if d >= 1 {
      assert n * d == n + n * (d - 1);
    } else if d <= -1 {
      assert n * d == n * (d + 1) - n;
    }
  }

  /** In general printed rows are accepted exactly when their number divides the number of fields. */
  lemma AcceptedIff(rows: Table)
    requires Printable(rows)
    ensures rows == [] ==> ParseFrom(Print(rows), []) == NoRows
    ensures rows != [] ==> (ParseFrom(Print(rows), []).Ok? <==> FieldCount(rows) % |rows| == 0)
    ensures ParseFrom(Print(rows), []).Ok? ==> ParseFrom(Print(rows), []).rows == rows
  {
    ParsePrinted(rows, []);
    assert [] + rows == rows;
  }

  /** The rows that SetSlots reads stay in bounds exactly when the accepted table is rectangular. */
  lemma InBoundsIffRectangular(text: string)
    requires ParseFrom(text, []).Ok?
    ensures var p := ParseFrom(text, []);
            (forall i :: 0 <= i < |p.rows| ==> p.numCols + 1 <= |p.rows[i]|) <==> Rectangular(p.rows, p.numCols)
  {
    var p := ParseFrom(text, []);
    ParsedCount(text, []);
    if forall i :: 0 <= i < |p.rows| ==> p.numCols + 1 <= |p.rows[i]| {
      NoRowLonger(p.rows, p.numCols);
    }
  }

  lemma {:induction false} ParsedCount(text: string, done: Table)
    requires HaveIds(done) && ParseFrom(text, done).Ok?
    ensures var p := ParseFrom(text, done); HaveIds(p.rows) && FieldCount(p.rows) == |p.rows| * p.numCols
    decreases |text|
  {
    hide Row, IdOf, Word;
    var t := SkipSpace(text);
    if IdOf(Word(t)) == "" {
      Division(FieldCount(done), |done|);
    } else {
      assert Word(t) != "" by { IdFits(Word(t)); }
      ParsedCount(t[|Word(t)|..], done + [Row(Word(t)).value]);
    }
  }

  lemma IdFits(w: string)
    ensures |IdOf(w)| <= |w|
  {
  }

  lemma Division(a: nat, n: nat)
    requires 0 < n && a % n == 0
    ensures a == n * (a / n)
  {
  }

  lemma {:induction false} NoRowLonger(rows: Table, cols: nat)
    requires HaveIds(rows) && FieldCount(rows) == |rows| * cols
    requires forall i :: 0 <= i < |rows| ==> cols + 1 <= |rows[i]|
    ensures Rectangular(rows, cols)
  {
    if rows != [] {
      var n := |rows| - 1;
      AtLeast(rows[..n], cols);
      assert |rows[n]| == cols + 1 && FieldCount(rows[..n]) == n * cols;
      NoRowLonger(rows[..n], cols);
    }
  }

  lemma {:induction false} AtLeast(rows: Table, cols: nat)
    requires HaveIds(rows) && forall i :: 0 <= i < |rows| ==> cols + 1 <= |rows[i]|
    ensures |rows| * cols <= FieldCount(rows)
  {
    if rows != [] {
      AtLeast(rows[..|rows| - 1], cols);
    }
  }

  /** The divisibility check lets a ragged file through: rows of one slot and of three. */
  lemma RaggedAccepted()
    ensures exists text ::
      ParseFrom(text, []).Ok? && !Rectangular(ParseFrom(text, []).rows, ParseFrom(text, []).numCols)
  {
    hide ParseFrom, Print;
    RaggedCount();
    AcceptedIff(RAGGED);
    assert |RAGGED[0]| == 2 && |RAGGED[1]| == 4;
    assert ParseFrom(Print(RAGGED), []).Ok?;
  }

  const RAGGED: Table := [[0, 1], [1, 0, 0, 1]]

  lemma RaggedCount()
    ensures Printable(RAGGED) && FieldCount(RAGGED) == 4
  {
    assert RAGGED[..1] == [[0, 1]] && [[0, 1]][..0] == [];
    assert FieldCount([[0, 1]]) == 1;
  }

  /** From the file to the table of the helper. */
  method Load(text: string) returns (parsed: Parsed, helper: TdmaHelper?, inBounds: bool)
    ensures parsed == ParseFrom(text, [])
    ensures !parsed.Ok? ==> helper == null
    ensures parsed.Ok? ==> helper != null && fresh(helper) && helper.Valid()
                           && (inBounds <==> Rectangular(parsed.rows, parsed.numCols))
                           && (inBounds ==> helper.Cells() == parsed.rows)
  {
    hide ParseFrom;
    helper, inBounds := null, false;
    var parser := new TdmaSlotAssignmentFileParser();
    parsed := parser.ParseTdmaSlotInformation(text);
    if parsed.Ok? {
      helper := new TdmaHelper.Sized(parser.numRows, parser.numCols);
      inBounds := helper.SetSlots(parser.slotArray);
      InBoundsIffRectangular(text);
      assert inBounds ==> forall i :: 0 <= i < |parsed.rows| ==> helper.Cells()[i] == parsed.rows[i];
    }
  }

  // ---------------------------------------------------------------- which files are refused

  /** Bits with a single comma between any two. */
  predicate WellFormed(line: string) {
    |line| % 2 == 1
    && forall i :: 0 <= i < |line| ==> if i % 2 == 0 then line[i] == '0' || line[i] == '1' else line[i] == ','
  }

  lemma AtoiBit(s: string)
    requires Bit(s)
    ensures Atoi(s) == if s[0] == '1' then 1 else 0
  {
    assert Leading(s[1..]) == "";
    assert Leading(s) == s && s[..0] == "";
    assert Number(s[..0]) == 0;
  }

  /** `r` is `word` and then the bits of a line. */
  predicate BitsOf(r: seq<nat>, word: seq<nat>, line: string) {
    |r| == |word| + (|line| + 1) / 2 && word <= r
    && forall k :: 0 <= k < (|line| + 1) / 2 && 2 * k < |line| ==> r[|word| + k] == if line[2 * k] == '1' then 1 else 0
  }

  lemma BitsStep(r: seq<nat>, word: seq<nat>, line: string)
    requires 2 <= |line| && BitsOf(r, word + [if line[0] == '1' then 1 else 0], line[2..])
    ensures BitsOf(r, word, line)
  {
    var w, rest := word + [if line[0] == '1' then 1 else 0], line[2..];
    forall k | 0 <= k < (|line| + 1) / 2 && 2 * k < |line|
      ensures r[|word| + k] == if line[2 * k] == '1' then 1 else 0
    {
      if 0 < k {
        assert rest[2 * (k - 1)] == line[2 * k] && |w| + (k - 1) == |word| + k;
      } else {
        assert r[|word|] == w[|word|];
      }
    }
  }

  /** The fields of a line are accepted exactly when it is well-formed, and then they are its bits. */
  lemma {:induction false} FieldsIff(line: string, word: seq<nat>)
    ensures Fields(line, word).Some? <==> WellFormed(line)
    ensures WellFormed(line) ==> BitsOf(Fields(line, word).value, word, line)
    decreases |line|
  {
    hide Atoi, WellFormed, BitsOf;
    var p := Find(line);
    if p > 1 {
      LateComma(line);
    } else if p == 1 {
      FirstBit(line);
      if Bit(line[..1]) {
        AtoiBit(line[..1]);
        FieldsIff(line[2..], word + [Atoi(line[..1])]);
        if WellFormed(line) {
          BitsStep(Fields(line, word).value, word, line);
        }
      }
    } else if Bit(line) {
      AtoiBit(line);
      OneBit(line, word);
    } else {
      NoComma(line);
    }
  }

  lemma OneBit(line: string, word: seq<nat>)
    requires Bit(line)
    ensures WellFormed(line) && BitsOf(word + [if line[0] == '1' then 1 else 0], word, line)
  {
  }

  lemma LateComma(line: string)
    requires 1 < Find(line)
    ensures !WellFormed(line) && !Bit(line[..Find(line)])
  {
    assert line[1] != ',';
  }

  lemma FirstBit(line: string)
    requires 2 <= |line| && line[1] == ','
    ensures WellFormed(line) <==> Bit(line[..1]) && WellFormed(line[2..])
  {
    var rest := line[2..];
    assert Bit(line[..1]) <==> line[0] == '0' || line[0] == '1';
    if WellFormed(line) {
      forall i | 0 <= i < |rest| ensures if i % 2 == 0 then rest[i] == '0' || rest[i] == '1' else rest[i] == ',' {
        assert rest[i] == line[i + 2];
      }
    }
    if Bit(line[..1]) && WellFormed(rest) {
      forall i | 2 <= i < |line| ensures if i % 2 == 0 then line[i] == '0' || line[i] == '1' else line[i] == ',' {
        assert line[i] == rest[i - 2];
      }
    }
  }

  lemma NoComma(line: string)
    requires Find(line) <= 0 && !Bit(line)
    ensures !WellFormed(line)
  {
    if |line| == 1 {
      assert line == [line[0]];
    } else if 1 < |line| {
      assert Find(line) == 0 ==> line[0] == ',';
      assert Find(line) == -1 ==> line[1] != ',';
    }
  }

  /** The words of the file up to the first without an id. */
  function Words(text: string): seq<string>
    decreases |text|
  {
    var t := SkipSpace(text);
    if IdOf(Word(t)) == "" then [] else [Word(t)] + Words(t[|Word(t)|..])
  }

  /** The assertion on fields fails exactly when some word's slots are not bits with single commas between. */
  lemma {:induction false} BadFieldIff(text: string, rows: Table)
    requires HaveIds(rows)
    ensures ParseFrom(text, rows) == BadField <==>
      exists i :: 0 <= i < |Words(text)| && !WellFormed(AfterId(Words(text)[i]))
    decreases |text|
  {
    hide Fields, WellFormed, AfterId, IdOf, Word;
    var t := SkipSpace(text);
    if IdOf(Word(t)) != "" {
      assert Word(t) != "" by { IdFits(Word(t)); }
      var w, more := Word(t), Words(t[|Word(t)|..]);
      FieldsIff(AfterId(w), [Atoi(IdOf(w))]);
      assert Words(text) == [w] + more;
      if Row(w).Some? {
        BadFieldIff(t[|Word(t)|..], rows + [Row(w).value]);
        assert forall i :: 0 <= i < |more| ==> Words(text)[i + 1] == more[i];
        if i :| 0 <= i < |Words(text)| && !WellFormed(AfterId(Words(text)[i])) {
          assert 0 < i && more[i - 1] == Words(text)[i];
        }
      } else {
        assert Words(text)[0] == w;
      }
    } else {
      FinishIsFine(rows);
    }
  }

  lemma FinishIsFine(rows: Table)
    requires HaveIds(rows)
    ensures Finish(rows) != BadField
  {
  }
}
