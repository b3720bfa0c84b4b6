// Reading the kernel's output line by line: a stream is accepted only if its indices
// are a permutation, so each chunk gets the vector tagged with its own text's index.
module VectorStream {

  type Vector = seq<real>

  datatype Line =
    | Blank
    | Garbled                                   // not JSON
    | Row(index: int, vec: Vector)

  datatype Error =
    | BadLine(lineNo: nat)
    | OutOfRange(index: int)
    | Duplicate(index: int)
    | WrongDims(index: int, dims: nat)
    | HandlerFailed(index: int)
    | ScanFailed
    | Missing(index: int)
    | CountMismatch(count: nat)

  datatype Outcome = Accepted | Refused(error: Error)

  // The rows of a stream, in order.
  function Rows(lines: seq<Line>): seq<Line> {
    if lines == [] then []
    else Rows(lines[..|lines| - 1]) + if lines[|lines| - 1].Row? then [lines[|lines| - 1]] else []
  }

  ghost predicate AllRows(rows: seq<Line>) {
    forall k :: 0 <= k < |rows| ==> rows[k].Row?
  }

  lemma {:induction false} RowsAreRows(lines: seq<Line>)
    ensures AllRows(Rows(lines))
    decreases |lines|
  {
    if lines != [] { RowsAreRows(lines[..|lines| - 1]); }
  }

  // Indices in range, no index twice, and every vector of the right size.
  ghost predicate WellTagged(rows: seq<Line>, n: nat, dims: nat) {
    && AllRows(rows)
    && (forall k :: 0 <= k < |rows| ==> 0 <= rows[k].index < n && |rows[k].vec| == dims)
    && (forall j, k :: 0 <= j < k < |rows| ==> rows[j].index != rows[k].index)
  }

  ghost predicate NoneGarbled(lines: seq<Line>) {
    forall k :: 0 <= k < |lines| ==> !lines[k].Garbled?
  }

  ghost predicate Tagged(rows: seq<Line>, i: int)
    requires AllRows(rows)
  {
    exists k :: 0 <= k < |rows| && rows[k].index == i
  }

  // Each index of [0,n) is the tag of exactly one row.
  ghost predicate TagsArePermutation(rows: seq<Line>, n: nat)
    requires AllRows(rows)
  {
    && |rows| == n
    && (forall k :: 0 <= k < |rows| ==> 0 <= rows[k].index < n)
    && (forall i :: 0 <= i < n ==> Tagged(rows, i))
    && (forall j, k :: 0 <= j < k < |rows| ==> rows[j].index != rows[k].index)
  }

  // --- Counting ---

  function CountTrue(seen: seq<bool>): nat {
    if seen == [] then 0 else CountTrue(seen[..|seen| - 1]) + if seen[|seen| - 1] then 1 else 0
  }

  lemma {:induction false} CountSet(seen: seq<bool>, i: nat)
    requires i < |seen| && !seen[i]
    ensures CountTrue(seen[i := true]) == CountTrue(seen) + 1
    decreases |seen|
  {
    var n := |seen| - 1;
    if i < n {
      assert seen[i := true][..n] == seen[..n][i := true];
      CountSet(seen[..n], i);
    } else {
      assert seen[i := true][..n] == seen[..n];
    }
  }

  lemma {:induction false} CountBounds(seen: seq<bool>)
    ensures CountTrue(seen) <= |seen|
    ensures CountTrue(seen) == |seen| <==> forall i :: 0 <= i < |seen| ==> seen[i]
    decreases |seen|
  {
    if seen != [] { CountBounds(seen[..|seen| - 1]); }
  }

  lemma {:induction false} CountNone(seen: seq<bool>)
    requires forall i :: 0 <= i < |seen| ==> !seen[i]
    ensures CountTrue(seen) == 0
    decreases |seen|
  {
    if seen != [] { CountNone(seen[..|seen| - 1]); }
  }

  // seen marks the tags of the rows read so far.
  ghost predicate Marks(rows: seq<Line>, n: nat, seen: seq<bool>)
    requires AllRows(rows)
  {
    && |seen| == n && CountTrue(seen) == |rows|
    && (forall i :: 0 <= i < n ==> seen[i] == Tagged(rows, i))
  }

  lemma TagOneMore(rows: seq<Line>, row: Line, i: int)
    requires AllRows(rows) && row.Row?
    ensures AllRows(rows + [row]) && (Tagged(rows + [row], i) <==> Tagged(rows, i) || row.index == i)
  {
    var more := rows + [row];
    assert more[|rows|] == row;
    if Tagged(rows, i) {
      var k :| 0 <= k < |rows| && rows[k].index == i;
      assert more[k].index == i;
    }
  }

  lemma MarkOneMore(rows: seq<Line>, n: nat, seen: seq<bool>, row: Line)
    requires AllRows(rows) && Marks(rows, n, seen) && row.Row? && 0 <= row.index < n && !seen[row.index]
    ensures AllRows(rows + [row]) && Marks(rows + [row], n, seen[row.index := true])
  {
    CountSet(seen, row.index);
    forall i | 0 <= i < n
      ensures seen[row.index := true][i] == Tagged(rows + [row], i)
    {
      TagOneMore(rows, row, i);
    }
  }

  // By pigeonhole, as many different tags below n as there are indices leave none out.
  lemma {:induction false} FullCountIsPermutation(rows: seq<Line>, n: nat, dims: nat, seen: seq<bool>)
    requires WellTagged(rows, n, dims) && Marks(rows, n, seen)
    ensures |rows| == n <==> TagsArePermutation(rows, n)
    ensures |rows| == n <==> forall i :: 0 <= i < n ==> seen[i]
  {
    CountBounds(seen);
  }

  // --- streamParseVectors ---

  // What a stream must satisfy; handler holds the indices whose onVector call fails.
  ghost predicate Acceptable(lines: seq<Line>, n: nat, dims: nat, handler: set<int>) {
    && NoneGarbled(lines) && WellTagged(Rows(lines), n, dims)
    && forall k :: 0 <= k < |Rows(lines)| ==> Rows(lines)[k].index !in handler
  }

  function Pairs(rows: seq<Line>): seq<(int, Vector)>
    requires AllRows(rows)
  {
    seq(|rows|, k requires 0 <= k < |rows| => (rows[k].index, rows[k].vec))
  }

  // What has been read after the first k lines.
  ghost predicate Reading(lines: seq<Line>, k: nat, n: nat, dims: nat, handler: set<int>, seen: seq<bool>,
                          handled: seq<(int, Vector)>)
    requires k <= |lines|
  {
    && Acceptable(lines[..k], n, dims, handler)
    && Marks(Rows(lines[..k]), n, seen) && handled == Pairs(Rows(lines[..k]))
  }

  lemma {:induction false} RowsPrefix(lines: seq<Line>, k: nat)
    requires k <= |lines|
    ensures Rows(lines[..k]) <= Rows(lines)
    decreases |lines|
  {
    if k < |lines| {
      var front := lines[..|lines| - 1];
      assert lines[..k] == front[..k];
      RowsPrefix(front, k);
    } else {
      assert lines[..k] == lines;
    }
  }

  lemma RowsStep(lines: seq<Line>, k: nat)
    requires k < |lines|
    ensures Rows(lines[..k + 1]) == Rows(lines[..k]) + if lines[k].Row? then [lines[k]] else []
  {
    assert lines[..k + 1][..k] == lines[..k];
  }

  // A stream is acceptable only if all its prefixes are.
  lemma PrefixAcceptable(lines: seq<Line>, k: nat, n: nat, dims: nat, handler: set<int>)
    requires k <= |lines| && Acceptable(lines, n, dims, handler)
    ensures Acceptable(lines[..k], n, dims, handler)
  {
    RowsPrefix(lines, k);
    var rows, all := Rows(lines[..k]), Rows(lines);
    assert forall j :: 0 <= j < |rows| ==> rows[j] == all[j];
  }

  // The checks on one row, in order.
  function Check(row: Line, n: nat, dims: nat, seen: seq<bool>): (e: Outcome)
    requires row.Row? && |seen| == n
  {
    if row.index < 0 || row.index >= n then Refused(OutOfRange(row.index))
    else if seen[row.index] then Refused(Duplicate(row.index))
    else if |row.vec| != dims then Refused(WrongDims(row.index, |row.vec|))
    else Accepted
  }

  lemma GoodRow(lines: seq<Line>, k: nat, n: nat, dims: nat, handler: set<int>, seen: seq<bool>,
                handled: seq<(int, Vector)>)
    requires k < |lines| && Reading(lines, k, n, dims, handler, seen, handled) && lines[k].Row?
    requires Check(lines[k], n, dims, seen).Accepted? && lines[k].index !in handler
    ensures Reading(lines, k + 1, n, dims, handler, seen[lines[k].index := true], handled
                    + [(lines[k].index, lines[k].vec)])
  {
    var rows, row := Rows(lines[..k]), lines[k];
    RowsStep(lines, k);
    MarkOneMore(rows, n, seen, row);
    assert !Tagged(rows, row.index);
    assert lines[..k + 1] == lines[..k] + [row];
  }

  lemma BadRow(lines: seq<Line>, k: nat, n: nat, dims: nat, handler: set<int>, seen: seq<bool>,
               handled: seq<(int, Vector)>)
    requires k < |lines| && Reading(lines, k, n, dims, handler, seen, handled) && lines[k].Row?
    requires Check(lines[k], n, dims, seen).Refused? || lines[k].index in handler
    ensures !Acceptable(lines, n, dims, handler)
  {
    RowsStep(lines, k);
    var rows, row := Rows(lines[..k]), lines[k];
    var more := rows + [row];
    assert more[|rows|] == row;
    if 0 <= row.index < n && seen[row.index] {
      assert Tagged(rows, row.index);
      var j :| 0 <= j < |rows| && rows[j].index == row.index;
      assert more[j].index == more[|rows|].index;
    }
    if Acceptable(lines, n, dims, handler) { PrefixAcceptable(lines, k + 1, n, dims, handler); }
  }

  lemma BlankLine(lines: seq<Line>, k: nat, n: nat, dims: nat, handler: set<int>, seen: seq<bool>,
                  handled: seq<(int, Vector)>)
    requires k < |lines| && Reading(lines, k, n, dims, handler, seen, handled) && lines[k].Blank?
    ensures Reading(lines, k + 1, n, dims, handler, seen, handled)
  {
    RowsStep(lines, k);
    assert Rows(lines[..k]) + [] == Rows(lines[..k]);
    assert lines[..k + 1] == lines[..k] + [lines[k]];
  }

  lemma ReadToEnd(lines: seq<Line>, n: nat, dims: nat, handler: set<int>, seen: seq<bool>, handled: seq<(int, Vector)>)
    requires Reading(lines, |lines|, n, dims, handler, seen, handled)
    ensures Acceptable(lines, n, dims, handler) && handled == Pairs(Rows(lines)) && |seen| == n
    ensures |Rows(lines)| == n <==> forall i :: 0 <= i < n ==> seen[i]
    ensures |Rows(lines)| == n ==> TagsArePermutation(Rows(lines), n)
  {
    assert lines[..|lines|] == lines;
    FullCountIsPermutation(Rows(lines), n, dims, seen);
  }

  // Vectors handed on so far: a prefix of the rows, all in range.
  ghost predicate OfRows(handled: seq<(int, Vector)>, lines: seq<Line>, n: nat) {
    && AllRows(Rows(lines)) && |handled| <= |Rows(lines)|
    && forall j :: 0 <= j < |handled| ==>
      0 <= handled[j].0 < n && handled[j] == (Rows(lines)[j].index, Rows(lines)[j].vec)
  }

  lemma ReadingOfRows(lines: seq<Line>, k: nat, n: nat, dims: nat, handler: set<int>, seen: seq<bool>,
                      handled: seq<(int, Vector)>)
    requires k <= |lines| && Reading(lines, k, n, dims, handler, seen, handled)
    ensures OfRows(handled, lines, n)
  {
    RowsAreRows(lines);
    RowsPrefix(lines, k);
    var rows, all := Rows(lines[..k]), Rows(lines);
    assert forall j :: 0 <= j < |rows| ==> rows[j] == all[j];
  }

  // Line k is the first that is wrong, and the error says what is wrong with it.
  ghost predicate WrongAt(lines: seq<Line>, k: int, n: nat, dims: nat, handler: set<int>, error: Error) {
    && 0 <= k < |lines| && Acceptable(lines[..k], n, dims, handler)
    && match lines[k]
       case Blank => false
       case Garbled => error == BadLine(k + 1)
       case Row(index, vec) =>
         var twice := Tagged(Rows(lines[..k]), index);
         match error
         case OutOfRange(i) => i == index && !(0 <= index < n)
         case Duplicate(i) => i == index && 0 <= index < n && twice
         case WrongDims(i, size) => i == index && size == |vec| != dims && 0 <= index < n && !twice
         case HandlerFailed(i) => i == index && index in handler && |vec| == dims && 0 <= index < n && !twice
         case _ => false
  }

  // Or the lines are fine but the scan failed, or the least index without a vector is i.
  ghost predicate WrongAtEnd(lines: seq<Line>, scanFails: bool, n: nat, dims: nat, handler: set<int>, error: Error) {
    && Acceptable(lines, n, dims, handler)
    && match error
       case ScanFailed => scanFails
       case Missing(i) =>
         !scanFails && 0 <= i < n && !Tagged(Rows(lines), i) && forall j :: 0 <= j < i ==> Tagged(Rows(lines), j)
       case _ => false
  }

  // The refusal, with the vectors of exactly the rows before it handed on.
  ghost predicate RefusedFor(lines: seq<Line>, scanFails: bool, n: nat, dims: nat, handler: set<int>, error: Error,
                             handled: seq<(int, Vector)>)
  {
    || (WrongAtEnd(lines, scanFails, n, dims, handler, error) && handled == Pairs(Rows(lines)))
    || exists k :: WrongAt(lines, k, n, dims, handler, error) && handled == Pairs(Rows(lines[..k]))
  }

  lemma RefusedAt(lines: seq<Line>, k: nat, scanFails: bool, n: nat, dims: nat, handler: set<int>, seen: seq<bool>,
                  handled: seq<(int, Vector)>)
    requires k < |lines| && Reading(lines, k, n, dims, handler, seen, handled)
    ensures lines[k].Garbled? ==> RefusedFor(lines, scanFails, n, dims, handler, BadLine(k + 1), handled)
    ensures lines[k].Row? && Check(lines[k], n, dims, seen).Refused? ==>
              RefusedFor(lines, scanFails, n, dims, handler, Check(lines[k], n, dims, seen).error, handled)
    ensures lines[k].Row? && Check(lines[k], n, dims, seen).Accepted? && lines[k].index in handler ==>
              RefusedFor(lines, scanFails, n, dims, handler, HandlerFailed(lines[k].index), handled)
  {
    if lines[k].Garbled? { assert WrongAt(lines, k, n, dims, handler, BadLine(k + 1)); }
    if lines[k].Row? && Check(lines[k], n, dims, seen).Refused? {
      assert WrongAt(lines, k, n, dims, handler, Check(lines[k], n, dims, seen).error);
    }
    if lines[k].Row? && Check(lines[k], n, dims, seen).Accepted? && lines[k].index in handler {
      assert WrongAt(lines, k, n, dims, handler, HandlerFailed(lines[k].index));
    }
  }

  lemma RefusedAtEnd(lines: seq<Line>, scanFails: bool, n: nat, dims: nat, handler: set<int>, seen: seq<bool>,
                     handled: seq<(int, Vector)>)
    requires Reading(lines, |lines|, n, dims, handler, seen, handled)
    ensures scanFails ==> RefusedFor(lines, scanFails, n, dims, handler, ScanFailed, handled)
    ensures forall i :: !scanFails && 0 <= i < n && !seen[i] && (forall j :: 0 <= j < i ==> seen[j]) ==>
              RefusedFor(lines, scanFails, n, dims, handler, Missing(i), handled)
  {
    assert lines[..|lines|] == lines;
    assert forall i :: 0 <= i < n ==> seen[i] == Tagged(Rows(lines), i);
  }

  method StreamParseVectors(lines: seq<Line>, scanFails: bool, n: nat, dims: nat, handler: set<int>)
    returns (out: Outcome, handled: seq<(int, Vector)>)
    ensures out.Accepted? <==> !scanFails && Acceptable(lines, n, dims, handler) && |Rows(lines)| == n
    ensures out.Accepted? ==> TagsArePermutation(Rows(lines), n) && handled == Pairs(Rows(lines))
    ensures out.Refused? ==> !out.error.CountMismatch?
    ensures out.Refused? ==> RefusedFor(lines, scanFails, n, dims, handler, out.error, handled)
    ensures OfRows(handled, lines, n)
  {
    handled := [];
    var seen := new bool[n](_ => false);
    CountNone(seen[..]);
    var count := 0;
    for lineNo := 0 to |lines|
      invariant Reading(lines, lineNo, n, dims, handler, seen[..], handled) && count == |handled|
    {
      var line := lines[lineNo];
      ReadingOfRows(lines, lineNo, n, dims, handler, seen[..], handled);
      RefusedAt(lines, lineNo, scanFails, n, dims, handler, seen[..], handled);
      hide RefusedFor, OfRows;
      if line.Blank? {
        BlankLine(lines, lineNo, n, dims, handler, seen[..], handled);
        continue;
      }
      if line.Garbled? { return Refused(BadLine(lineNo + 1)), handled; }
      var check := Check(line, n, dims, seen[..]);
      if check.Refused? {
        BadRow(lines, lineNo, n, dims, handler, seen[..], handled);
        return check, handled;
      }
      if line.index in handler {
        BadRow(lines, lineNo, n, dims, handler, seen[..], handled);
        return Refused(HandlerFailed(line.index)), handled;
      }
      GoodRow(lines, lineNo, n, dims, handler, seen[..], handled);
      seen[line.index] := true;
      count := count + 1;
      handled := handled + [(line.index, line.vec)];
    }
    ReadToEnd(lines, n, dims, handler, seen[..], handled);
    ReadingOfRows(lines, |lines|, n, dims, handler, seen[..], handled);
    RefusedAtEnd(lines, scanFails, n, dims, handler, seen[..], handled);
    if scanFails { return Refused(ScanFailed), handled; }
    if count != n {
      for i := 0 to n
        invariant forall j :: 0 <= j < i ==> seen[..][j]
      {
        if !seen[i] { return Refused(Missing(i)), handled; }
      }
      // The fallback error after this loop can never be reached.
      assert false;
    }
    out := Accepted;
  }

  // --- Indices and chunk ids ---

  // Writes input rows with sequential indices.
  class InputWriter {
    var count: nat
    ghost var texts: seq<string>

    constructor ()
      ensures count == 0 && texts == []
    {
      count, texts := 0, [];
    }

    ghost predicate Valid() reads this { count == |texts| }

    // The row written is (index, text); encoding may fail.
    method Write(text: string, encodes: bool) returns (ok: bool, index: nat)
      requires Valid()
      modifies this
      ensures Valid() && ok == encodes && index == |old(texts)|
      ensures texts == if ok then old(texts) + [text] else old(texts)
    {
      index := count;
      if !encodes { return false, index; }
      texts := texts + [text];
      count := count + 1;
      ok := true;
    }
  }

  datatype Chunk = Chunk(id: int, text: string)

  function Ids(missing: seq<Chunk>): set<int> {
    set k | 0 <= k < |missing| :: missing[k].id
  }

  // Row j's vector belongs to the chunk with row j's index.
  ghost predicate Aligned(missing: seq<Chunk>, stored: map<int, Vector>, lines: seq<Line>, upTo: nat)
    requires AllRows(Rows(lines)) && upTo <= |Rows(lines)|
    requires forall j :: 0 <= j < upTo ==> 0 <= Rows(lines)[j].index < |missing|
  {
    && (forall j :: 0 <= j < upTo ==> missing[Rows(lines)[j].index].id in stored)
    && (forall id :: id in stored ==>
        exists j :: 0 <= j < upTo && missing[Rows(lines)[j].index].id == id && stored[id] == Rows(lines)[j].vec)
  }

  function Texts(missing: seq<Chunk>): seq<string> {
    seq(|missing|, k requires 0 <= k < |missing| => missing[k].text)
  }

  // The writing callback: sequential rows, and the ids in the same order. Any row's
  // encoding may fail; the rows before it are written by then.
  method WriteInput(missing: seq<Chunk>, fails: set<nat>)
    returns (ok: bool, n: nat, ids: seq<int>, ghost written: seq<string>)
    ensures ok <==> forall k :: 0 <= k < |missing| ==> k !in fails
    ensures ok ==> n == |missing| == |ids| && forall k :: 0 <= k < n ==> ids[k] == missing[k].id
    ensures written <= Texts(missing) && if ok then |written| == |missing| else |written| in fails
  {
    var writer := new InputWriter();
    ids := [];
    n := 0;
    for i := 0 to |missing|
      invariant writer.Valid() && fresh(writer) && writer.count == i && |ids| == i
      invariant writer.texts == Texts(missing)[..i]
      invariant forall k :: 0 <= k < i ==> ids[k] == missing[k].id && k !in fails
    {
      ids := ids + [missing[i].id];
      assert Texts(missing)[..i + 1] == Texts(missing)[..i] + [missing[i].text];
      var good, index := writer.Write(missing[i].text, i !in fails);
      if !good { return false, n, ids, writer.texts; }
    }
    n := writer.count;
    ok, written := true, writer.texts;
  }

  // The receiving callback: each vector goes under the id of its index.
  method StoreVectors(missing: seq<Chunk>, ids: seq<int>, handled: seq<(int, Vector)>, ghost lines: seq<Line>)
    returns (stored: map<int, Vector>)
    requires OfRows(handled, lines, |missing|) && |ids| == |missing| && forall k :: 0 <= k < |ids| ==>
      ids[k] == missing[k].id
    ensures Aligned(missing, stored, lines, |handled|)
  {
    stored := map[];
    for j := 0 to |handled|
      invariant Aligned(missing, stored, lines, j)
    {
      stored := stored[ids[handled[j].0] := handled[j].1];
    }
  }

  // EmbedMissingKaggle around one job. Whatever happens, a vector is only ever stored
  // under the id of the chunk whose index it carries. It succeeds exactly when every row
  // is encoded and the returned stream is accepted; then every chunk has its own.
  method EmbedMissing(missing: seq<Chunk>, fails: set<nat>, lines: seq<Line>, scanFails: bool, dims: nat,
                      handler: set<int>)
    returns (ok: bool, stored: map<int, Vector>)
    requires forall j, k :: 0 <= j < k < |missing| ==> missing[j].id != missing[k].id
    ensures forall id :: id in stored ==> Sourced(missing, Rows(lines), id, stored[id])
    ensures ok ==> stored.Keys == Ids(missing)
    ensures ok && missing != [] ==> AllRows(Rows(lines)) && TagsArePermutation(Rows(lines), |missing|)
    ensures ok <==> (forall k :: 0 <= k < |missing| ==> k !in fails)
                    && (missing == []
                        || (!scanFails && Acceptable(lines, |missing|, dims, handler) && |Rows(lines)| == |missing|))
    ensures (exists k :: 0 <= k < |missing| && k in fails) ==> stored == map[]
  {
    stored := map[];
    var n: nat, ids: seq<int>;
    ghost var written;
    ok, n, ids, written := WriteInput(missing, fails);
    if !ok { return; }
    if n == 0 { return; }
    var out, handled := StreamParseVectors(lines, scanFails, n, dims, handler);
    stored := StoreVectors(missing, ids, handled, lines);
    ok := out.Accepted?;
    AlignedStores(missing, stored, lines, |handled|);
    if ok { AllStored(missing, stored, lines); }
  }

  // The vector stored under an id comes from a row tagged with that id's chunk.
  ghost predicate Sourced(missing: seq<Chunk>, rows: seq<Line>, id: int, vec: Vector) {
    exists j, k :: 0 <= j < |rows| && 0 <= k < |missing| && rows[j] == Row(k, vec) && missing[k].id == id
  }

  lemma AlignedStores(missing: seq<Chunk>, stored: map<int, Vector>, lines: seq<Line>, upTo: nat)
    requires AllRows(Rows(lines)) && upTo <= |Rows(lines)|
    requires forall j :: 0 <= j < upTo ==> 0 <= Rows(lines)[j].index < |missing|
    requires Aligned(missing, stored, lines, upTo)
    ensures forall id :: id in stored ==> Sourced(missing, Rows(lines), id, stored[id])
  {
    var rows := Rows(lines);
    forall id | id in stored
      ensures Sourced(missing, rows, id, stored[id])
    {
      var j :| 0 <= j < upTo && missing[rows[j].index].id == id && stored[id] == rows[j].vec;
      assert rows[j] == Row(rows[j].index, stored[id]);
    }
  }

  lemma AllStored(missing: seq<Chunk>, stored: map<int, Vector>, lines: seq<Line>)
    requires AllRows(Rows(lines)) && TagsArePermutation(Rows(lines), |missing|)
    requires Aligned(missing, stored, lines, |Rows(lines)|)
    ensures stored.Keys == Ids(missing)
  {
    forall k | 0 <= k < |missing| ensures missing[k].id in stored { assert Tagged(Rows(lines), k); }
    forall id | id in stored
      ensures id in Ids(missing)
    {
      var j :| 0 <= j < |Rows(lines)| && missing[Rows(lines)[j].index].id == id;
    }
  }
}
