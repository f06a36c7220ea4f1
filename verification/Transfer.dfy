/**
 Copying a file between two channels.  The reader and the writer behave as io.Reader and io.Writer
 must, and otherwise as their scripts say: any read sizes, any placement of EOF, any failures.
 */
module Transfer {
  import opened Wrappers

  datatype ReadError = NoError | EOF | Broken

  datatype ReadStep = ReadStep(size: nat, error: ReadError)

  /** How many bytes a write may store, and whether it fails even if that is all of them. */
  datatype WriteStep = WriteStep(size: nat, fails: bool)

  function Min(a: nat, b: nat): nat {
    if a <= b then a else b
  }

  // ----- what the reader delivers -----

  /** One read into a buffer, with `left` bytes of the source to come; a script that has run out fails. */
  function Answer(script: seq<ReadStep>, left: nat, bufferSize: nat): (r: ReadStep)
    ensures r.size <= left && r.size <= bufferSize && (r.error == EOF ==> r.size == left)
  {
    if script == [] then ReadStep(0, Broken)
    else
      var n := Min(script[0].size, Min(bufferSize, left));
      ReadStep(n, if script[0].error == EOF && n < left then NoError else script[0].error)
  }

  function Tail<T>(s: seq<T>): seq<T> {
    if s == [] then [] else s[1..]
  }

  /** The sizes of the non-empty reads up to the end, an error or a cancellation, if every write succeeds. */
  function Chunks(script: seq<ReadStep>, left: nat, bufferSize: nat, cancelled: nat -> bool,
      turn: nat): (chunks: seq<nat>)
    ensures forall k :: 0 <= k < |chunks| ==> chunks[k] > 0
    decreases |script|
  {
    if cancelled(turn) || script == [] then []
    else
      var r := Answer(script, left, bufferSize);
      var first := if r.size > 0 then [r.size] else [];
      if r.error != NoError then first
      else first + Chunks(script[1..], left - r.size, bufferSize, cancelled, turn + 1)
  }

  /** What the k-th read answers, if all before it went on. */
  function ReadAt(script: seq<ReadStep>, left: nat, bufferSize: nat, k: nat): ReadStep
    decreases k
  {
    var r := Answer(script, left, bufferSize);
    if k == 0 then r else ReadAt(Tail(script), left - r.size, bufferSize, k - 1)
  }

  /** The turns that end the loop, if every write succeeds: cancelled, or the read meets the end or an error. */
  function Ends(script: seq<ReadStep>, left: nat, bufferSize: nat, cancelled: nat -> bool): nat -> bool {
    (n: nat) => EndsAt(script, left, bufferSize, cancelled, n)
  }

  predicate EndsAt(script: seq<ReadStep>, left: nat, bufferSize: nat, cancelled: nat -> bool, n: nat) {
    cancelled(n) || ReadAt(script, left, bufferSize, n).error != NoError
  }

  lemma {:induction false} OutOfScript(script: seq<ReadStep>, left: nat, bufferSize: nat, k: nat)
    requires k >= |script|
    ensures ReadAt(script, left, bufferSize, k) == ReadStep(0, Broken)
    decreases k
  {
    if k > 0 { OutOfScript(Tail(script), left - Answer(script, left, bufferSize).size, bufferSize, k - 1); }
  }

  // ----- what the writer makes of it -----

  /** How much of a write of `len` bytes is stored: what the script says, or all of it once it has run out. */
  function Stores(script: seq<WriteStep>, len: nat): nat {
    if script == [] then len else Min(script[0].size, len)
  }

  /** A write that stores less than it was given fails, and others may. */
  predicate Short(script: seq<WriteStep>, len: nat) {
    script != [] && !Whole(script[0], len)
  }

  predicate Whole(step: WriteStep, len: nat) {
    step.size >= len && !step.fails
  }

  /** What each write stores; the first that fails is the last. */
  function Stored(chunks: seq<nat>, script: seq<WriteStep>): seq<nat>
    decreases |chunks|
  {
    if chunks == [] then []
    else
      var n := Stores(script, chunks[0]);
      [n] + if Short(script, chunks[0]) then [] else Stored(chunks[1..], Tail(script))
  }

  /** Some write fails. */
  predicate Fails(chunks: seq<nat>, script: seq<WriteStep>)
    decreases |chunks|
  {
    chunks != [] && (Short(script, chunks[0]) || Fails(chunks[1..], Tail(script)))
  }

  /** The progress reports: running totals from `before`. */
  function Totals(stored: seq<nat>, before: nat): (totals: seq<nat>)
    ensures |totals| == |stored|
    decreases |stored|
  {
    if stored == [] then [] else [before + stored[0]] + Totals(stored[1..], before + stored[0])
  }

  function Sum(stored: seq<nat>): nat {
    if stored == [] then 0 else stored[0] + Sum(stored[1..])
  }

  class Reader {
    const data: seq<bv8>
    var pos: nat
    var script: seq<ReadStep>

    ghost predicate Valid()
      reads this
    {
      pos <= |data|
    }

    constructor (data: seq<bv8>, script: seq<ReadStep>)
      ensures Valid() && this.data == data && pos == 0 && this.script == script
    {
      this.data, this.script, pos := data, script, 0;
    }

    /** Up to a buffer of the bytes that follow; EOF only at the end, possibly together with the last bytes. */
    method Read(buf: array<bv8>) returns (n: nat, error: ReadError)
      requires Valid()
      modifies this, buf
      ensures Valid() && ReadStep(n, error) == Answer(old(script), |data| - old(pos), buf.Length)
              && script == Tail(old(script))
      ensures pos == old(pos) + n && n <= buf.Length && buf[..n] == data[old(pos)..pos]
      ensures error == EOF ==> pos == |data|
    {
      if script == [] {
        return 0, Broken;
      }
      n := script[0].size;
      if n > buf.Length { n := buf.Length; }
      if n > |data| - pos { n := |data| - pos; }
      forall i | 0 <= i < n {
        buf[i] := data[pos + i];
      }
      pos := pos + n;
      error := if script[0].error == EOF && pos < |data| then NoError else script[0].error;
      script := script[1..];
    }
  }

  class Writer {
    var file: seq<bv8>
    var closed: bool
    var cleaned: bool      // cleanupDst was called
    var removed: bool
    var script: seq<WriteStep>   // none left: every write succeeds

    constructor (script: seq<WriteStep>)
      ensures file == [] && !closed && !cleaned && !removed && this.script == script
    {
      file, closed, cleaned, removed, this.script := [], false, false, false, script;
    }

    method Write(buf: array<bv8>, len: nat) returns (n: nat, failed: bool)
      requires len <= buf.Length && !closed
      modifies this`file, this`script
      ensures n == Stores(old(script), len) <= len && script == Tail(old(script))
      ensures file == old(file) + buf[..n]
      ensures failed <==> Short(old(script), len)
      ensures n < len ==> failed
    {
      n := if script != [] && script[0].size < len then script[0].size else len;
      failed := script != [] && (n < len || script[0].fails);
      if script != [] {
        script := script[1..];
      }
      file := file + buf[..n];
    }

    method Close(fails: bool) returns (failed: bool)
      modifies this`closed
      ensures closed && failed == fails
    {
      closed := true;
      failed := fails;
    }

    /** cleanupDst: a best effort, which may not work. */
    method CleanUp(works: bool)
      modifies this`cleaned, this`removed
      ensures cleaned && removed == works
    {
      cleaned, removed := true, works;
    }

    /** What every failure inside the loop does: close, ignoring the outcome, and clean up. */
    method Abandon(works: bool)
      modifies this`closed, this`cleaned, this`removed
      ensures closed && cleaned && removed == works
    {
      var _ := Close(false);
      CleanUp(works);
    }
  }

  datatype Outcome = Done | Cancelled | WriteFailed | ReadFailed | CloseFailed

  ghost predicate Increasing(reports: seq<nat>) {
    forall i, j :: 0 <= i < j < |reports| ==> reports[i] < reports[j]
  }

  /** Some write after the first is answered with zero bytes, and every write before it is stored whole. */
  ghost predicate StoresNothingLater(chunks: seq<nat>, script: seq<WriteStep>) {
    exists k: nat :: EmptyAnswer(chunks, script, k)
  }

  predicate EmptyAnswer(chunks: seq<nat>, script: seq<WriteStep>, k: nat) {
    && 1 <= k < |chunks| && k < |script| && script[k].size == 0
    && (forall i :: 0 <= i < k ==> Whole(script[i], chunks[i]))
  }

  /**
   The reports are the running totals of what the writes store, the last of them is what was written, and
   they increase strictly exactly when no write after the first is answered with zero bytes, as with a
   writer that always stores something.
   */
  ghost predicate Accounted(chunks: seq<nat>, script: seq<WriteStep>, reports: seq<nat>, written: nat, writeFailed: bool) {
    && reports == Totals(Stored(chunks, script), 0)
    && written == Sum(Stored(chunks, script))
    && (writeFailed <==> Fails(chunks, script))
    && (Increasing(reports) <==> !StoresNothingLater(chunks, script))
    && ((forall w :: w in script ==> w.size > 0) ==> Increasing(reports))
    && (reports != [] ==> reports[|reports| - 1] == written)
  }

  /**
   How a transfer comes out, for every answer of reader, writer and context: a failing write ends it;
   otherwise the first turn that is cancelled or meets an error or the end of the source does, and the
   close has the last word.
   */
  predicate Concluded(script: seq<ReadStep>, left: nat, bufferSize: nat, cancelled: nat -> bool, writeFails: bool,
                      closeFails: bool, outcome: Outcome) {
    var last := Stop(Ends(script, left, bufferSize, cancelled), 0, |script|);
    var error := ReadAt(script, left, bufferSize, last).error;
    && (outcome == WriteFailed <==> writeFails)
    && (outcome == Cancelled <==> !writeFails && cancelled(last))
    && (outcome == ReadFailed <==> !writeFails && !cancelled(last) && error == Broken)
    && (outcome == CloseFailed <==> !writeFails && !cancelled(last) && error == EOF && closeFails)
    && (outcome == Done <==> !writeFails && !cancelled(last) && error == EOF && !closeFails)
  }

  /** One read and, if it brought anything, one write of it. */
  method CopyChunk(reader: Reader, writer: Writer, buf: array<bv8>)
    returns (n: nat, stored: nat, error: ReadError, failed: bool)
    requires reader.Valid() && !writer.closed && writer.file == reader.data[..reader.pos]
    modifies reader, writer`file, writer`script, buf
    ensures reader.Valid() && reader.pos == old(reader.pos) + n && reader.script == Tail(old(reader.script))
    ensures ReadStep(n, error) == Answer(old(reader.script), |reader.data| - old(reader.pos), buf.Length)
    ensures stored == (if n == 0 then 0 else Stores(old(writer.script), n)) <= n
    ensures failed <==> n > 0 && Short(old(writer.script), n)
    ensures stored < n ==> failed
    ensures writer.script == if n == 0 then old(writer.script) else Tail(old(writer.script))
    ensures writer.file == reader.data[..old(reader.pos) + stored] <= reader.data
  {
    ghost var start := reader.pos;
    n, error := reader.Read(buf);
    stored, failed := 0, false;
    if n > 0 {
      stored, failed := writer.Write(buf, n);
      assert buf[..stored] == buf[..n][..stored];
      PrefixGrows(reader.data, start, n, stored);
    }
  }

  /**
   The copy loop; `reports` are the byte counts of the progress events.  Success means that the whole
   source arrived; every failure leaves a prefix of it, which is handed to the cleanup.
   */
  method TransferBetweenChannels(reader: Reader, writer: Writer, bufferSize: nat, cancelled: nat -> bool,
                                 closeFails: bool, cleanupWorks: bool)
    returns (outcome: Outcome, written: nat, reports: seq<nat>)
    requires reader.Valid() && reader.pos == 0 && writer.file == [] && !writer.closed && !writer.cleaned
             && !writer.removed
    modifies reader, writer
    ensures outcome == Done ==> writer.file == reader.data && !writer.cleaned && !writer.removed
    ensures outcome != Done ==> writer.file <= reader.data && writer.cleaned && writer.removed == cleanupWorks
    ensures outcome == CloseFailed ==> writer.file == reader.data
    ensures writer.closed && written == |writer.file|
    ensures Accounted(Chunks(old(reader.script), |reader.data|, bufferSize, cancelled, 0), old(writer.script),
                      reports, written, outcome == WriteFailed)
    ensures Concluded(old(reader.script), |reader.data|, bufferSize, cancelled,
                      Fails(Chunks(old(reader.script), |reader.data|, bufferSize, cancelled, 0), old(writer.script)),
                      closeFails, outcome)
  {
    hide Chunks, Goal, Stored, Fails, Totals, Sum, Answer, Ahead, Accounted, Stores, Short, Concluded, ReadAt, Onward;
    var buf := new bv8[bufferSize];
    written, reports := 0, [];
    var turn := 0;
    ghost var goal := Goal(Chunks(reader.script, |reader.data|, bufferSize, cancelled, 0), writer.script);
    PlanAccounted(reader.script, |reader.data|, bufferSize, cancelled, writer.script);
    ghost var script, left := reader.script, |reader.data|;
    OnwardStarts(script, left, bufferSize, cancelled);
    while true
      invariant reader.Valid() && !writer.closed && !writer.cleaned && !writer.removed && fresh(buf)
      invariant writer.file == reader.data[..reader.pos] && written == reader.pos
      invariant Ahead(goal, Chunks(reader.script, |reader.data| - reader.pos, bufferSize, cancelled, turn),
                      writer.script, reports, written)
      invariant Onward(script, left, bufferSize, cancelled, turn, reader.script, |reader.data| - reader.pos)
      decreases |reader.script|
    {
      OnwardEnds(script, left, bufferSize, cancelled, turn, reader.script, |reader.data| - reader.pos, closeFails);
      ChunksStep(reader.script, |reader.data| - reader.pos, bufferSize, cancelled, turn);
      if cancelled(turn) {
        AheadEnds(goal, writer.script, reports, written);
        writer.Abandon(cleanupWorks);
        return Cancelled, written, reports;
      }
      turn := turn + 1;
      ghost var answers := writer.script;
      var n, stored, error, failed := CopyChunk(reader, writer, buf);
      ghost var rest := Later(error, reader.script, |reader.data| - reader.pos, bufferSize, cancelled, turn);
      if n > 0 {
        AheadStep(goal, n, rest, answers, reports, written);
        written := written + stored;
        reports := reports + [written];
        if failed {
          writer.Abandon(cleanupWorks);
          return WriteFailed, written, reports;
        }
      }
      if error == EOF {
        AheadEnds(goal, writer.script, reports, written);
        break;
      }
      if error != NoError {
        AheadEnds(goal, writer.script, reports, written);
        writer.Abandon(cleanupWorks);
        return ReadFailed, written, reports;
      }
    }
    var failed := writer.Close(closeFails);
    if failed {
      writer.CleanUp(cleanupWorks);
      return CloseFailed, written, reports;
    }
    outcome := Done;
  }

  // ----- the loop against the specification -----

  /** No turn so far ended the loop, and the reads to come are those of the rest of the script. */
  ghost predicate Onward(script: seq<ReadStep>, left: nat, bufferSize: nat, cancelled: nat -> bool, turn: nat,
                         rest: seq<ReadStep>, restLeft: nat) {
    && turn + |rest| == |script|
    && (forall m: nat :: ReadAt(script, left, bufferSize, turn + m) == ReadAt(rest, restLeft, bufferSize, m))
    && (forall j: nat :: j < turn ==> !EndsAt(script, left, bufferSize, cancelled, j))
  }

  lemma OnwardStarts(script: seq<ReadStep>, left: nat, bufferSize: nat, cancelled: nat -> bool)
    ensures Onward(script, left, bufferSize, cancelled, 0, script, left)
  {}

  /** What a turn decides. */
  lemma OnwardEnds(script: seq<ReadStep>, left: nat, bufferSize: nat, cancelled: nat -> bool, turn: nat,
                   rest: seq<ReadStep>, restLeft: nat, closeFails: bool)
    requires Onward(script, left, bufferSize, cancelled, turn, rest, restLeft)
    ensures Concluded(script, left, bufferSize, cancelled, true, closeFails, WriteFailed)
    ensures cancelled(turn) ==> Concluded(script, left, bufferSize, cancelled, false, closeFails, Cancelled)
    ensures var r := Answer(rest, restLeft, bufferSize);
      !cancelled(turn) ==>
        match r.error
        case NoError => Onward(script, left, bufferSize, cancelled, turn + 1, Tail(rest), restLeft - r.size)
        case EOF =>
          Concluded(script, left, bufferSize, cancelled, false, closeFails, if closeFails then CloseFailed else Done)
        case Broken => Concluded(script, left, bufferSize, cancelled, false, closeFails, ReadFailed)
  {
    var r := Answer(rest, restLeft, bufferSize);
    var bad := Ends(script, left, bufferSize, cancelled);
    assert ReadAt(script, left, bufferSize, turn + 0) == ReadAt(rest, restLeft, bufferSize, 0) == r;
    if cancelled(turn) || r.error != NoError {
      StopIs(bad, 0, |script|, turn);
    } else {
      var fewer, less: nat := Tail(rest), restLeft - r.size;
      forall m: nat
        ensures ReadAt(script, left, bufferSize, turn + 1 + m) == ReadAt(fewer, less, bufferSize, m)
      {
        assert ReadAt(script, left, bufferSize, turn + (m + 1)) == ReadAt(rest, restLeft, bufferSize, m + 1);
      }
    }
  }

  /** The reports, the count and the verdict that chunks and a writer script lead to. */
  datatype Ending = Ending(reports: seq<nat>, written: nat, fails: bool)

  function Goal(chunks: seq<nat>, script: seq<WriteStep>): Ending {
    Ending(Totals(Stored(chunks, script), 0), Sum(Stored(chunks, script)), Fails(chunks, script))
  }

  /** What was reported and written so far, and what is still to come, make up the goal. */
  ghost predicate Ahead(goal: Ending, chunks: seq<nat>, script: seq<WriteStep>, reports: seq<nat>, written: nat) {
    && goal.reports == reports + Totals(Stored(chunks, script), written)
    && goal.written == written + Sum(Stored(chunks, script))
    && goal.fails == Fails(chunks, script)
  }

  /** The chunks after a read that answered `error`. */
  function Later(error: ReadError, script: seq<ReadStep>, left: nat, bufferSize: nat, cancelled: nat -> bool,
      turn: nat): seq<nat> {
    if error != NoError then [] else Chunks(script, left, bufferSize, cancelled, turn)
  }

  lemma ChunksStep(script: seq<ReadStep>, left: nat, bufferSize: nat, cancelled: nat -> bool, turn: nat)
    ensures var r := Answer(script, left, bufferSize);
      Chunks(script, left, bufferSize, cancelled, turn) ==
        if cancelled(turn) then []
        else
          var later := Later(r.error, Tail(script), left - r.size, bufferSize, cancelled, turn + 1);
          if r.size > 0 then [r.size] + later else later
    ensures script == [] ==> Answer(script, left, bufferSize).error == Broken
  {
    if script != [] {
      hide Answer;
    }
  }

  lemma AheadStarts(chunks: seq<nat>, script: seq<WriteStep>)
    ensures Ahead(Goal(chunks, script), chunks, script, [], 0)
  {}

  lemma PlanAccounted(script: seq<ReadStep>, left: nat, bufferSize: nat, cancelled: nat -> bool, answers: seq<WriteStep>)
    ensures var chunks := Chunks(script, left, bufferSize, cancelled, 0);
      var goal := Goal(chunks, answers);
      Accounted(chunks, answers, goal.reports, goal.written, goal.fails) && Ahead(goal, chunks, answers, [], 0)
  {
    var chunks := Chunks(script, left, bufferSize, cancelled, 0);
    GoalAccounted(chunks, answers);
    AheadStarts(chunks, answers);
  }

  lemma PrefixGrows(data: seq<bv8>, start: nat, n: nat, stored: nat)
    requires start + n <= |data| && stored <= n
    ensures data[..start] + data[start..start + n][..stored] == data[..start + stored]
    ensures data[..start + stored] <= data
  {}

  lemma AheadEnds(goal: Ending, script: seq<WriteStep>, reports: seq<nat>, written: nat)
    requires Ahead(goal, [], script, reports, written)
    ensures goal == Ending(reports, written, false)
  {
    assert reports + [] == reports;
  }

  lemma AheadStep(goal: Ending, n: nat, rest: seq<nat>, script: seq<WriteStep>, reports: seq<nat>, written: nat)
    requires n > 0 && Ahead(goal, [n] + rest, script, reports, written)
    ensures var k := Stores(script, n);
      if Short(script, n) then goal == Ending(reports + [written + k], written + k, true)
      else Ahead(goal, rest, Tail(script), reports + [written + k], written + k)
  {
    var k := Stores(script, n);
    StoredCons(n, rest, script);
    var later := if Short(script, n) then [] else Stored(rest, Tail(script));
    hide Stored, Fails, Stores, Short;
    TotalsCons(k, later, written);
    assert reports + ([written + k] + Totals(later, written + k))
           == reports + [written + k] + Totals(later, written + k);
    if Short(script, n) {
      assert reports + [written + k] + [] == reports + [written + k];
    }
  }

  lemma StoredCons(n: nat, rest: seq<nat>, script: seq<WriteStep>)
    ensures var k := Stores(script, n);
      && Stored([n] + rest, script) == [k] + (if Short(script, n) then [] else Stored(rest, Tail(script)))
      && (Fails([n] + rest, script) <==> Short(script, n) || Fails(rest, Tail(script)))
  {
    assert ([n] + rest)[1..] == rest;
  }

  lemma TotalsCons(k: nat, later: seq<nat>, written: nat)
    ensures Totals([k] + later, written) == [written + k] + Totals(later, written + k)
    ensures Sum([k] + later) == k + Sum(later)
  {
    assert ([k] + later)[1..] == later;
  }

  // ----- progress -----

  lemma {:induction false} TotalsAt(stored: seq<nat>, before: nat, k: nat)
    requires k < |stored|
    ensures Totals(stored, before)[k] == (if k == 0 then before else Totals(stored, before)[k - 1]) + stored[k]
    decreases k
  {
    if k > 0 { TotalsAt(stored[1..], before + stored[0], k - 1); }
  }

  lemma {:induction false} TotalsGrow(stored: seq<nat>, before: nat, i: nat, j: nat)
    requires i < j < |stored| && forall k :: 1 <= k < |stored| ==> stored[k] > 0
    ensures Totals(stored, before)[i] < Totals(stored, before)[j]
    decreases j
  {
    TotalsAt(stored, before, j);
    if i < j - 1 { TotalsGrow(stored, before, i, j - 1); }
  }

  /** Reports increase strictly exactly when every write but the first stores something. */
  lemma IncreasingExactly(stored: seq<nat>)
    ensures Increasing(Totals(stored, 0)) <==> forall k :: 1 <= k < |stored| ==> stored[k] > 0
  {
    var totals := Totals(stored, 0);
    if forall k :: 1 <= k < |stored| ==> stored[k] > 0 {
      forall i, j | 0 <= i < j < |totals|
        ensures totals[i] < totals[j]
      {
        TotalsGrow(stored, 0, i, j);
      }
    }
    if Increasing(totals) {
      forall k | 1 <= k < |stored|
        ensures stored[k] > 0
      {
        TotalsAt(stored, 0, k);
        assert totals[k - 1] < totals[k];
      }
    }
  }

  /** A write that happens stores what the writer answers it, and all earlier ones were stored whole. */
  lemma {:induction false} StoredAt(chunks: seq<nat>, script: seq<WriteStep>, k: nat)
    ensures k < |Stored(chunks, script)| <==>
      k < |chunks| && forall i :: 0 <= i < k ==> (i < |script| ==> Whole(script[i], chunks[i]))
    ensures k < |Stored(chunks, script)| ==>
      Stored(chunks, script)[k] == if k < |script| then Min(script[k].size, chunks[k]) else chunks[k]
    decreases k
  {
    if chunks != [] && k > 0 {
      StoredAt(chunks[1..], Tail(script), k - 1);
      hide Whole;
      if Short(script, chunks[0]) {
        assert !Whole(script[0], chunks[0]);
      } else if k < |chunks| {
        WholeBefore(chunks, script, k);
      }
    }
  }

  lemma WholeBefore(chunks: seq<nat>, script: seq<WriteStep>, k: nat)
    requires chunks != [] && 0 < k <= |chunks| && (0 < |script| ==> Whole(script[0], chunks[0]))
    ensures (forall i :: 0 <= i < k ==> (i < |script| ==> Whole(script[i], chunks[i]))) <==>
      (forall i :: 0 <= i < k - 1 ==> (i < |Tail(script)| ==> Whole(Tail(script)[i], chunks[1..][i])))
  {
    hide Whole;
    if forall i :: 0 <= i < k - 1 ==> (i < |Tail(script)| ==> Whole(Tail(script)[i], chunks[1..][i])) {
      forall i | 0 < i < k && i < |script|
        ensures Whole(script[i], chunks[i])
      {
        assert Whole(Tail(script)[i - 1], chunks[1..][i - 1]);
      }
    }
  }

  /**
   The counts a transfer reports increase strictly exactly when no write after the first is answered
   with zero bytes: a condition on the reader's chunks and the writer's answers alone.
   */
  lemma ReportsIncreaseExactly(chunks: seq<nat>, script: seq<WriteStep>)
    requires forall k :: 0 <= k < |chunks| ==> chunks[k] > 0
    ensures Increasing(Totals(Stored(chunks, script), 0)) <==> !StoresNothingLater(chunks, script)
  {
    var stored := Stored(chunks, script);
    IncreasingExactly(stored);
    forall k | 1 <= k
      ensures k < |stored| && stored[k] == 0 <==> EmptyAnswer(chunks, script, k)
    {
      StoredAt(chunks, script, k);
    }
  }

  /** A writer that always stores something never makes a count repeat. */
  lemma HonestWriter(chunks: seq<nat>, script: seq<WriteStep>)
    requires (forall k :: 0 <= k < |chunks| ==> chunks[k] > 0) && forall w :: w in script ==> w.size > 0
    ensures Increasing(Totals(Stored(chunks, script), 0))
  {
    ReportsIncreaseExactly(chunks, script);
    forall k: nat
      ensures !EmptyAnswer(chunks, script, k)
    {
      if k < |script| { assert script[k] in script && script[k].size > 0; }
    }
  }

  lemma {:induction false} LastTotal(stored: seq<nat>, before: nat)
    requires stored != []
    ensures Totals(stored, before)[|stored| - 1] == before + Sum(stored)
    decreases |stored|
  {
    if |stored| > 1 { LastTotal(stored[1..], before + stored[0]); }
  }

  lemma GoalAccounted(chunks: seq<nat>, script: seq<WriteStep>)
    requires forall k :: 0 <= k < |chunks| ==> chunks[k] > 0
    ensures var g := Goal(chunks, script); Accounted(chunks, script, g.reports, g.written, g.fails)
  {
    ReportsIncreaseExactly(chunks, script);
    if forall w :: w in script ==> w.size > 0 { HonestWriter(chunks, script); }
    if Stored(chunks, script) != [] { LastTotal(Stored(chunks, script), 0); }
    hide Increasing, StoresNothingLater, Stored, Fails, Sum;
  }

  /** An input on which a count repeats: two bytes, one at a time, and a writer that stores one and then none. */
  method RepeatedCount() returns (reports: seq<nat>)
    ensures reports == [1, 1] && !Increasing(reports)
  {
    var reader := new Reader([7, 8], [ReadStep(1, NoError), ReadStep(1, EOF)]);
    var writer := new Writer([WriteStep(1, false), WriteStep(0, true)]);
    var never := (turn: nat) => false;
    RepeatedPlan(reader.script, never);
    var outcome, written;
    outcome, written, reports := TransferBetweenChannels(reader, writer, 1, never, false, true);
    assert !(reports[0] < reports[1]);
  }

  lemma RepeatedPlan(script: seq<ReadStep>, never: nat -> bool)
    requires script == [ReadStep(1, NoError), ReadStep(1, EOF)] && !never(0) && !never(1)
    ensures Totals(Stored(Chunks(script, 2, 1, never, 0), [WriteStep(1, false), WriteStep(0, true)]), 0) == [1, 1]
  {
    assert script[1..] == [ReadStep(1, EOF)];
    assert Answer(script[1..], 1, 1) == ReadStep(1, EOF);
    assert Chunks(script[1..], 1, 1, never, 1) == [1];
    assert Answer(script, 2, 1) == ReadStep(1, NoError);
    assert Chunks(script, 2, 1, never, 0) == [1] + [1];
    hide Chunks;
    var answers := [WriteStep(1, false), WriteStep(0, true)];
    StoredCons(1, [1], answers);
    StoredCons(0 + 1, [], answers[1..]);
    assert [1] + [] == [1] && Tail(answers) == answers[1..];
    hide Stored;
    TotalsCons(1, [0], 0);
    TotalsCons(0, [], 1);
    assert [0] + [] == [0] && [1] + [0] == [1, 0];
  }
}
