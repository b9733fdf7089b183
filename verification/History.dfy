/** The shell's command history, a file that is read in both directions.

    An entry is its length, its text and its length again; a zero length ends the log. */
module History {
  import opened Options

  type Text = seq<nat>

  const INT_LIMIT: nat := 0x8000_0000

  // ----- bytes -----

  /** The four bytes of an int, lowest first. */
  function IntBytes(n: nat): (bytes: Text)
    ensures |bytes| == 4
  {
    [n % 256, n / 256 % 256, n / 0x1_0000 % 256, n / 0x100_0000 % 256]
  }

  function IntAt(file: Text, off: nat): nat
    requires off + 4 <= |file|
  {
    file[off] + 256 * file[off + 1] + 0x1_0000 * file[off + 2] + 0x100_0000 * file[off + 3]
  }

  lemma IntRoundTrip(n: nat, file: Text, off: nat)
    requires n < INT_LIMIT && off + 4 <= |file| && file[off..off + 4] == IntBytes(n)
    ensures IntAt(file, off) == n
  {
    var b := file[off..off + 4];
    assert b[0] == file[off] && b[1] == file[off + 1] && b[2] == file[off + 2] && b[3] == file[off + 3];
    var q := n / 256;
    var p := q / 256;
    assert n / 0x1_0000 == p && n / 0x100_0000 == p / 256;
  }

  function Enc(e: Text): (bytes: Text)
    ensures |bytes| == |e| + 8
  {
    IntBytes(|e|) + e + IntBytes(|e|)
  }

  const ZEROS: Text := [0, 0, 0, 0, 0, 0, 0, 0]

  function Log(es: seq<Text>): Text {
    if es == [] then [] else Log(es[..|es| - 1]) + Enc(es[|es| - 1])
  }

  /** What a write of `bytes` at `off` leaves. */
  function Overwrite(file: Text, off: nat, bytes: Text): (out: Text)
    requires off <= |file|
    ensures |out| >= off + |bytes|
  {
    file[..off] + bytes + if off + |bytes| <= |file| then file[off + |bytes|..] else []
  }

  ghost predicate Has(file: Text, off: nat, bytes: Text) {
    off + |bytes| <= |file| && file[off..off + |bytes|] == bytes
  }

  lemma HasParts(file: Text, off: nat, a: Text, b: Text)
    ensures Has(file, off, a + b) <==> Has(file, off, a) && Has(file, off + |a|, b)
  {
    if off + |a| + |b| <= |file| {
      var s := file[off..off + |a| + |b|];
      assert s[..|a|] == file[off..off + |a|] && s[|a|..] == file[off + |a|..off + |a| + |b|];
      assert (a + b)[..|a|] == a && (a + b)[|a|..] == b;
      assert s == s[..|a|] + s[|a|..];
    }
  }

  lemma HasWithin(file: Text, log: Text, off: nat, bytes: Text)
    requires Has(file, 0, log) && Has(log, off, bytes)
    ensures Has(file, off, bytes)
  {
    forall i | 0 <= i < |bytes| ensures file[off + i] == bytes[i] {
      assert log[off..off + |bytes|][i] == bytes[i] && file[0..|log|][off + i] == log[off + i];
    }
  }

  lemma OverwriteHas(file: Text, off: nat, bytes: Text, pre: Text)
    requires off <= |file| && |pre| == off && Has(file, 0, pre)
    ensures Has(Overwrite(file, off, bytes), 0, pre + bytes)
  {
  }

  /** Entry k lies where the log of the first k ends. */
  lemma LogEntry(es: seq<Text>, k: nat)
    requires k < |es|
    ensures |Log(es[..k + 1])| == |Log(es[..k])| + |es[k]| + 8 <= |Log(es)|
    ensures Has(Log(es), |Log(es[..k])|, Enc(es[k]))
    decreases |es|
  {
    var front := es[..|es| - 1];
    assert es[..k + 1][..k] == es[..k];
    if k < |es| - 1 {
      LogEntry(front, k);
      assert front[..k] == es[..k] && front[..k + 1] == es[..k + 1];
    } else {
      assert es[..k + 1] == es && es[..k] == front;
    }
  }

  lemma LogMore(es: seq<Text>, e: Text)
    ensures Log(es + [e]) == Log(es) + Enc(e)
  {
    assert (es + [e])[..|es|] == es;
  }

  // ----- what the history is: entries, a cursor, and the unfinished line -----

  datatype Zipper = Zipper(entries: seq<Text>, draft: Option<Text>, pos: nat)

  datatype Answer = Answer(code: int, text: Option<Text>)

  const START: Zipper := Zipper([], None, 0)

  function Saved(z: Zipper): Text {
    if z.draft.Some? then z.draft.value else []
  }

  ghost predicate Good(z: Zipper) {
    && (forall i :: 0 <= i < |z.entries| ==> 0 < |z.entries[i]| < INT_LIMIT)
    && |Saved(z)| < INT_LIMIT
    && (z.pos <= |z.entries| || (z.pos == |z.entries| + 1 && Saved(z) != []))
    && (z.pos < |z.entries| ==> z.draft.Some?)
    && (z.entries == [] ==> z.draft.None?)
  }

  function Write(z: Zipper, line: Text): Zipper {
    if line == [] then z else Zipper(z.entries + [line], None, |z.entries| + 1)
  }

  /** The line at a position: an entry, the unfinished line, or nothing after it. */
  function LineAt(z: Zipper, p: nat): Text {
    if p < |z.entries| then z.entries[p] else if p == |z.entries| then Saved(z) else []
  }

  function Up(z: Zipper, now: Text): Zipper {
    if z.entries == [] || z.pos == 0 then z
    else if z.pos == |z.entries| then Zipper(z.entries, Some(now), z.pos - 1)
    else z.(pos := z.pos - 1)
  }

  function UpAnswer(z: Zipper, now: Text): Answer {
    if z.entries == [] || z.pos == 0 then Answer(-1, None)
    else Answer(|LineAt(z, z.pos - 1)|, Some(LineAt(z, z.pos - 1)))
  }

  function Down(z: Zipper): Zipper {
    if z.pos < |z.entries| then z.(pos := z.pos + 1) else z
  }

  function DownAnswer(z: Zipper): Answer {
    if z.entries == [] then Answer(-1, None)
    else if z.pos == |z.entries| && z.draft.None? then Answer(0, None)
    else Answer(|LineAt(z, Down(z).pos)|, Some(LineAt(z, Down(z).pos)))
  }

  /** What reading forward from the start yields. */
  function All(z: Zipper): seq<Text> {
    if Saved(z) == [] then z.entries else z.entries + [Saved(z)]
  }

  function AfterAll(z: Zipper): Zipper {
    z.(pos := |All(z)|)
  }

  lemma GoodSteps(z: Zipper, line: Text)
    requires Good(z) && |line| < INT_LIMIT
    ensures Good(Write(z, line)) && Good(Up(z, line)) && Good(Down(z)) && Good(AfterAll(z))
  {
  }

  // ----- the file -----

  /** The file holds the entries, then the unfinished line if one is saved, then zeros. */
  ghost predicate Wrote(file: Text, z: Zipper) {
    Has(file, 0, Log(z.entries) + (if z.draft.Some? then Enc(z.draft.value) else []) + ZEROS)
  }

  /** Before the first command of a session the file holds what an earlier one left. */
  ghost predicate Holds(file: Text, z: Zipper) {
    z.entries != [] ==> Wrote(file, z)
  }

  function Boundary(z: Zipper, p: nat): nat {
    if p <= |z.entries| then |Log(z.entries[..p])| else |Log(z.entries)| + |Saved(z)| + 8
  }

  lemma EncEmpty()
    ensures Enc([]) == ZEROS
  {
  }

  /** Every position names an entry boundary, and the line at that position can be read there. */
  lemma LineIsThere(file: Text, z: Zipper, p: nat)
    requires Good(z) && Wrote(file, z) && p <= |All(z)|
    ensures Has(file, Boundary(z, p), Enc(LineAt(z, p)))
    ensures p < |All(z)| ==> Boundary(z, p + 1) == Boundary(z, p) + |LineAt(z, p)| + 8
    ensures z.entries[..|z.entries|] == z.entries
  {
    var log, mid := Log(z.entries), if z.draft.Some? then Enc(z.draft.value) else [];
    EncEmpty();
    assert z.entries[..|z.entries|] == z.entries;
    HasParts(file, 0, log + mid, ZEROS);
    HasParts(file, 0, log, mid);
    if p < |z.entries| {
      LogEntry(z.entries, p);
      var off := |Log(z.entries[..p])|;
      HasWithin(file, log, off, Enc(z.entries[p]));
    }
  }

  lemma BoundariesGrow(z: Zipper, p: nat, q: nat)
    requires p < q <= |z.entries|
    ensures Boundary(z, p) < Boundary(z, q)
    decreases q
  {
    LogEntry(z.entries, q - 1);
    if p < q - 1 { BoundariesGrow(z, p, q - 1); }
  }

  class Store {
    var file: Text
    var nowOff: nat
    var maxOff: nat
    var fakeMaxOff: nat
    ghost var z: Zipper

    ghost predicate Valid()
      reads this
    {
      && Good(z) && Holds(file, z)
      && maxOff == |Log(z.entries)| && (z.entries != [] ==> nowOff == Boundary(z, z.pos))
      && fakeMaxOff == maxOff + (if z.draft.Some? then |z.draft.value| + 8 else 0)
      && maxOff <= |file|
    }

    /** history_init: the file may hold the log of an earlier session. */
    constructor (file: Text)
      ensures Valid() && z == START
    {
      this.file, nowOff, maxOff, fakeMaxOff, z := file, 0, 0, 0, START;
    }

    method WriteEntry(off: nat, buf: Text) returns (len: nat)
      requires off <= |file|
      modifies `file
      ensures len == |buf| && file == Overwrite(old(file), off, Enc(buf) + ZEROS)
    {
      hide Overwrite, IntBytes;
      len := |buf|;
      file := Overwrite(file, off, IntBytes(len));
      WritesJoin(old(file), off, IntBytes(len), buf);
      file := Overwrite(file, off + 4, buf);
      WritesJoin(old(file), off, IntBytes(len) + buf, IntBytes(len));
      file := Overwrite(file, off + 4 + len, IntBytes(len));
      WritesJoin(old(file), off, Enc(buf), IntBytes(0));
      file := Overwrite(file, off + 8 + len, IntBytes(0));
      WritesJoin(old(file), off, Enc(buf) + IntBytes(0), IntBytes(0));
      file := Overwrite(file, off + 12 + len, IntBytes(0));
      TwoZeros(Enc(buf));
    }

    method ReadDownEntry(off: nat, ghost e: Text) returns (buf: Text)
      requires |e| < INT_LIMIT && Has(file, off, Enc(e))
      ensures buf == e
    {
      HasEnc(file, off, e);
      var len := IntAt(file, off);
      buf := file[off + 4..off + 4 + len];
    }

    method ReadUpEntry(off: nat, ghost e: Text) returns (buf: Text)
      requires |e| < INT_LIMIT && off >= |e| + 8 && Has(file, off - (|e| + 8), Enc(e))
      ensures buf == e
    {
      HasEnc(file, off - (|e| + 8), e);
      var len := IntAt(file, off - 4);
      buf := file[off - 4 - len..off - 4];
    }

    method HistoryWrite(buf: Text) returns (r: int)
      requires Valid() && |buf| < INT_LIMIT
      modifies this
      ensures Valid() && z == Write(old(z), buf)
      ensures r == if buf == [] then -1 else 0
    {
      hide Good, Holds, Wrote, Has, Log, Boundary, Overwrite, Enc, IntBytes;
      if buf == [] {
        return -1;
      }
      var len := WriteEntry(maxOff, buf);
      WriteKeeps(old(file), z, buf);
      z := Write(z, buf);
      maxOff := maxOff + len + 8;
      nowOff := maxOff;
      fakeMaxOff := maxOff;
      return 0;
    }

    /** history_get_all. Before the first command of a session it lists what an `earlier` one left. Once there
        is one, the offsets tell whether the list is exactly the session's commands. */
    method HistoryGetAll(ghost earlier: seq<Text>) returns (all: seq<Text>)
      requires Valid()
      requires z.entries == [] ==> Good(Zipper(earlier, None, |earlier|)) && Wrote(file, Zipper(earlier, None, |earlier|))
      modifies `nowOff, `z
      ensures Valid()
      ensures old(z).entries == [] ==> z == old(z) && all == earlier
      ensures old(z).entries != [] ==> z == AfterAll(old(z)) && all == All(z)
      ensures old(z).entries != [] ==> (all == z.entries <==> fakeMaxOff <= maxOff + 8)
    {
      hide Good, Holds, Wrote, Log, Boundary, Enc, IntBytes;
      ghost var y := if z.entries == [] then Zipper(earlier, None, |earlier|) else z;
      assert Good(y) && Wrote(file, y) by { Held(file, z); }
      nowOff := 0;
      all := [];
      BoundaryZero(y);
      while true
        invariant z == old(z)
        invariant |all| <= |All(y)| && all == All(y)[..|all|] && nowOff == Boundary(y, |all|)
        decreases |All(y)| - |all|
      {
        LineIsThere(file, y, |all|);
        LineShort(y, |all|);
        var buf := ReadDownEntry(nowOff, LineAt(y, |all|));
        if |buf| == 0 {
          break;
        }
        nowOff := nowOff + |buf| + 8;
        all := all + [buf];
      }
      if z.entries != [] {
        Moved(file, z, |all|);
        z := AfterAll(z);
      }
    }

    method HistoryNext(now: Text, up: bool) returns (r: int, buf: Option<Text>)
      requires Valid() && |now| < INT_LIMIT
      modifies this
      ensures Valid()
      ensures z == if up then Up(old(z), now) else Down(old(z))
      ensures Answer(r, buf) == if up then UpAnswer(old(z), now) else DownAnswer(old(z))
      ensures old(z).entries == [] || (up && old(z).pos == 0) ==> r == -1 && buf == None && z == old(z)
      ensures old(z).entries != [] && !up && old(z).pos == |old(z).entries| && old(z).draft == None ==> r == 0 && buf == None
      ensures old(z).entries != [] && up && old(z).pos > 0 ==> buf.Some? && r == |buf.value|
      ensures old(z).entries != [] && !up && (old(z).pos != |old(z).entries| || old(z).draft.Some?) ==> buf.Some? && r == |buf.value|
    {
      hide Good, Holds, Has, Log, Boundary, Overwrite, Enc;
      Places(z);
      GoodFacts(z, now);
      if (nowOff == 0 && up) || maxOff == 0 {
        return -1, None;
      }
      if nowOff == maxOff && !up && maxOff == fakeMaxOff {
        return 0, None;
      }
      if nowOff == maxOff && up {
        SaveDraft(now);
      }
      var line;
      if !up {
        line := StepDown();
      } else {
        line := StepUp();
      }
      return |line|, Some(line);
    }

    /** Leaving the end of the log upwards saves the unfinished line behind it. */
    method SaveDraft(now: Text)
      requires Valid() && z.entries != [] && z.pos == |z.entries| && |now| < INT_LIMIT
      modifies `file, `fakeMaxOff, `z
      ensures Valid() && z == old(z).(draft := Some(now))
    {
      hide Good, Holds, Has, Log, Boundary, Overwrite, Enc;
      var len := WriteEntry(maxOff, now);
      fakeMaxOff := maxOff + len + 8;
      DraftKeeps(old(file), z, now);
      z := z.(draft := Some(now));
    }

    /** Down: past the line under the cursor, unless that is the last, and read. */
    method StepDown() returns (line: Text)
      requires Valid() && z.entries != []
      modifies `nowOff, `z
      ensures Valid() && z == Down(old(z)) && line == LineAt(z, z.pos)
    {
      hide Good, Holds, Has, Log, Boundary, Overwrite, Enc;
      Places(z);
      GoodFacts(z, []);
      Held(file, z);
      LineIsThere(file, z, z.pos);
      if nowOff < maxOff {
        line := ReadDownEntry(nowOff, LineAt(z, z.pos));
        nowOff := nowOff + |line| + 8;
        Moved(file, z, z.pos + 1);
        z := z.(pos := z.pos + 1);
      }
      GoodFacts(z, []);
      Held(file, z);
      LineIsThere(file, z, z.pos);
      line := ReadDownEntry(nowOff, LineAt(z, z.pos));
    }

    /** Up: read the entry that ends at the cursor, and move before it. */
    method StepUp() returns (line: Text)
      requires Valid() && z.entries != [] && z.pos > 0 && z.draft.Some?
      modifies `nowOff, `z
      ensures Valid() && z == old(z).(pos := old(z).pos - 1) && line == LineAt(z, z.pos)
    {
      hide Good, Holds, Has, Log, Boundary, Overwrite, Enc;
      GoodFacts(z, []);
      GoodUp(z);
      Held(file, z);
      LineIsThere(file, z, z.pos - 1);
      line := ReadUpEntry(nowOff, LineAt(z, z.pos - 1));
      nowOff := nowOff - (|line| + 8);
      Moved(file, z, z.pos - 1);
      z := z.(pos := z.pos - 1);
    }
  }

  lemma GoodUp(z: Zipper)
    requires Good(z) && z.draft.Some? && z.pos > 0
    ensures Good(z.(pos := z.pos - 1))
  {
  }

  lemma TwoZeros(a: Text)
    ensures a + IntBytes(0) + IntBytes(0) == a + ZEROS
  {
    assert IntBytes(0) + IntBytes(0) == ZEROS;
  }

  /** A new entry over whatever followed the log. */
  lemma WriteKeeps(file: Text, z: Zipper, line: Text)
    requires Good(z) && Holds(file, z) && |Log(z.entries)| <= |file| && 0 < |line| < INT_LIMIT
    ensures var out, z' := Overwrite(file, |Log(z.entries)|, Enc(line) + ZEROS), Write(z, line);
      && Good(z') && Holds(out, z')
      && |Log(z'.entries)| == Boundary(z', z'.pos) == |Log(z.entries)| + |line| + 8 <= |out|
  {
    GoodSteps(z, line);
    LogMore(z.entries, line);
    Prefix(file, z);
    hide Good, Overwrite, IntBytes, Enc;
    var log, z' := Log(z.entries), Write(z, line);
    OverwriteHas(file, |log|, Enc(line) + ZEROS, log);
    assert log + (Enc(line) + ZEROS) == Log(z'.entries) + [] + ZEROS;
    assert z'.entries[..|z'.entries|] == z'.entries;
  }

  /** The unfinished line saved behind the log. */
  lemma DraftKeeps(file: Text, z: Zipper, now: Text)
    requires Good(z) && Holds(file, z) && |Log(z.entries)| <= |file| && |now| < INT_LIMIT
    requires z.entries != [] && z.pos == |z.entries|
    ensures var out, z' := Overwrite(file, |Log(z.entries)|, Enc(now) + ZEROS), z.(draft := Some(now));
      && Good(z') && Holds(out, z')
      && Boundary(z', z'.pos) == Boundary(z, z.pos) && |Log(z.entries)| <= |out|
  {
    Prefix(file, z);
    var log := Log(z.entries);
    OverwriteHas(file, |log|, Enc(now) + ZEROS, log);
    assert log + (Enc(now) + ZEROS) == log + Enc(now) + ZEROS;
  }

  /** Writing piece after piece is writing the whole. */
  lemma WritesJoin(file: Text, off: nat, a: Text, b: Text)
    requires off <= |file|
    ensures Overwrite(Overwrite(file, off, a), off + |a|, b) == Overwrite(file, off, a + b)
  {
  }

  lemma HasEnc(file: Text, off: nat, e: Text)
    requires |e| < INT_LIMIT && Has(file, off, Enc(e))
    ensures off + |e| + 8 <= |file|
    ensures IntAt(file, off) == |e| == IntAt(file, off + 4 + |e|)
    ensures file[off + 4..off + 4 + |e|] == e
  {
    HasParts(file, off, IntBytes(|e|) + e, IntBytes(|e|));
    HasParts(file, off, IntBytes(|e|), e);
    IntRoundTrip(|e|, file, off);
    IntRoundTrip(|e|, file, off + 4 + |e|);
  }

  /** The log is a prefix of the file. */
  lemma Prefix(file: Text, z: Zipper)
    requires Holds(file, z)
    ensures Has(file, 0, Log(z.entries))
  {
    var log, mid := Log(z.entries), if z.draft.Some? then Enc(z.draft.value) else [];
    if z.entries != [] {
      HasParts(file, 0, log + mid, ZEROS);
      HasParts(file, 0, log, mid);
    }
  }

  lemma Held(file: Text, z: Zipper)
    requires Holds(file, z)
    ensures z.entries != [] ==> Wrote(file, z)
  {
  }

  lemma BoundaryZero(z: Zipper)
    ensures Boundary(z, 0) == 0
  {
  }

  /** Only the line behind the last one is empty. */
  lemma LineShort(z: Zipper, p: nat)
    requires Good(z) && p <= |All(z)|
    ensures |LineAt(z, p)| < INT_LIMIT
    ensures p == |All(z)| <==> LineAt(z, p) == []
    ensures p < |All(z)| ==> LineAt(z, p) == All(z)[p]
    ensures Good(AfterAll(z))
  {
  }

  /** The cursor is not part of the file. */
  lemma Moved(file: Text, z: Zipper, p: nat)
    requires Holds(file, z)
    ensures Holds(file, z.(pos := p)) && forall q: nat {:trigger Boundary(z.(pos := p), q)} :: Boundary(z.(pos := p), q) == Boundary(z, q)
  {
  }

  lemma GoodFacts(z: Zipper, now: Text)
    requires Good(z) && |now| < INT_LIMIT
    ensures z.pos <= |All(z)| && |z.entries| <= |All(z)| && Good(Down(z)) && Good(Up(z, now))
    ensures z.pos != |z.entries| ==> z.draft.Some?
    ensures z.entries == [] ==> z.draft.None?
    ensures forall p: nat {:trigger LineAt(z, p)} :: |LineAt(z, p)| < INT_LIMIT
  {
  }

  /** The offsets tell where the cursor is. */
  lemma Places(z: Zipper)
    requires Good(z)
    ensures Log(z.entries) == [] <==> z.entries == []
    ensures Boundary(z, z.pos) == 0 <==> z.pos == 0
    ensures Boundary(z, z.pos) == |Log(z.entries)| <==> z.pos == |z.entries|
    ensures Boundary(z, z.pos) < |Log(z.entries)| <==> z.pos < |z.entries|
  {
    assert z.entries[..|z.entries|] == z.entries && z.entries[..0] == [];
    var n := |z.entries|;
    if 0 < n { BoundariesGrow(z, 0, n); }
    if 0 < z.pos <= n { BoundariesGrow(z, 0, z.pos); }
    if z.pos < n { BoundariesGrow(z, z.pos, n); }
  }

  // ----- whole sessions -----

  datatype Op = WriteOp(line: Text) | UpOp(now: Text) | DownOp | AllOp

  function Step(z: Zipper, op: Op): Zipper {
    match op
    case WriteOp(line) => Write(z, line)
    case UpOp(now) => Up(z, now)
    case DownOp => Down(z)
    case AllOp => AfterAll(z)
  }

  function Run(ops: seq<Op>): Zipper {
    if ops == [] then START else Step(Run(ops[..|ops| - 1]), ops[|ops| - 1])
  }

  /** The commands entered, in order; an empty line is not one. */
  function Commands(ops: seq<Op>): seq<Text> {
    if ops == [] then []
    else
      var op := ops[|ops| - 1];
      Commands(ops[..|ops| - 1]) + if op.WriteOp? && op.line != [] then [op.line] else []
  }

  /** Lengths fit an int. */
  ghost predicate Short(ops: seq<Op>) {
    forall i :: 0 <= i < |ops| ==>
      && (ops[i].WriteOp? ==> |ops[i].line| < INT_LIMIT)
      && (ops[i].UpOp? ==> |ops[i].now| < INT_LIMIT)
  }

  lemma StepEntries(z: Zipper, op: Op)
    requires Good(z) && (op.WriteOp? ==> |op.line| < INT_LIMIT) && (op.UpOp? ==> |op.now| < INT_LIMIT)
    ensures Good(Step(z, op))
    ensures Step(z, op).entries == z.entries + if op.WriteOp? && op.line != [] then [op.line] else []
  {
    hide Good;
    GoodSteps(z, if op.WriteOp? then op.line else if op.UpOp? then op.now else []);
  }

  /** Moving about never changes the entries: they are the commands of the session. */
  lemma {:induction false} EntriesAreCommands(ops: seq<Op>)
    requires Short(ops)
    ensures Good(Run(ops)) && Run(ops).entries == Commands(ops)
  {
    if ops != [] {
      hide Good, Step;
      var front, op := ops[..|ops| - 1], ops[|ops| - 1];
      EntriesAreCommands(front);
      StepEntries(Run(front), op);
    }
  }

  /** Reading forward yields exactly the session's commands unless an unfinished line is saved behind them;
      right after a command is written none is. */
  lemma AllIsCommandsIff(ops: seq<Op>)
    requires Short(ops)
    ensures All(Run(ops)) == Commands(ops) <==> Saved(Run(ops)) == []
    ensures ops != [] && ops[|ops| - 1].WriteOp? && ops[|ops| - 1].line != [] ==> All(Run(ops)) == Commands(ops)
  {
    EntriesAreCommands(ops);
    if Saved(Run(ops)) != [] { assert |All(Run(ops))| == |Run(ops).entries| + 1; }
  }

  /** The bad case is real: after one command, moving up from an unfinished line lists that line as well. */
  lemma UnfinishedLineListed(x: Text, y: Text)
    requires x != [] && y != []
    ensures Commands([WriteOp(x), UpOp(y)]) == [x] && All(Run([WriteOp(x), UpOp(y)])) == [x, y]
  {
    var ops := [WriteOp(x), UpOp(y)];
    assert ops[..1] == [WriteOp(x)] && ops[..1][..0] == [];
    assert Run([WriteOp(x)]) == Zipper([x], None, 1) && Commands([WriteOp(x)]) == [x];
  }

  /** One step up and one down return to the same place and line, and, from the end, to the line that was being
      typed; only the place behind a saved line, which reading everything leads to, is not returned to. */
  lemma UpThenDown(z: Zipper, now: Text)
    requires Good(z) && z.entries != [] && z.pos > 0
    ensures Down(Up(z, now)).pos == z.pos <==> z.pos <= |z.entries|
    ensures z.pos <= |z.entries| ==>
      DownAnswer(Up(z, now)).text == Some(if z.pos == |z.entries| then now else z.entries[z.pos])
    ensures UpAnswer(z, now).text == Some(if z.pos <= |z.entries| then z.entries[z.pos - 1] else Saved(z))
  {
  }

  /** One step down and one up return to the same entry. */
  lemma DownThenUp(z: Zipper, now: Text)
    requires Good(z) && z.pos < |z.entries|
    ensures Up(Down(z), now).pos == z.pos && Up(Down(z), now).entries == z.entries
    ensures UpAnswer(Down(z), now) == Answer(|z.entries[z.pos]|, Some(z.entries[z.pos]))
  {
  }

  function Ups(z: Zipper, now: Text, n: nat): Zipper {
    if n == 0 then z else Up(Ups(z, now, n - 1), now)
  }

  function Downs(z: Zipper, n: nat): Zipper {
    if n == 0 then z else Down(Downs(z, n - 1))
  }

  /** From the end, n steps up show the n-th last command and n steps down bring the unfinished line back. */
  lemma UpsThenDowns(z: Zipper, now: Text, n: nat)
    requires Good(z) && z.pos == |z.entries| && 0 < n <= |z.entries|
    ensures UpAnswer(Ups(z, now, n - 1), now).text == Some(z.entries[|z.entries| - n])
    ensures Downs(Ups(z, now, n), n) == Zipper(z.entries, Some(now), |z.entries|)
    ensures DownAnswer(Downs(Ups(z, now, n), n - 1)).text == Some(now)
  {
    hide Ups, Downs, Good;
    UpsFrom(z, now, n);
    UpsFrom(z, now, n - 1);
    DownsFrom(Ups(z, now, n), n);
    DownsFrom(Ups(z, now, n), n - 1);
  }

  lemma {:induction false} UpsFrom(z: Zipper, now: Text, n: nat)
    requires z.pos == |z.entries| && n <= |z.entries|
    ensures Ups(z, now, n) == if n == 0 then z else Zipper(z.entries, Some(now), |z.entries| - n)
  {
    if n > 0 { UpsFrom(z, now, n - 1); }
  }

  lemma {:induction false} DownsFrom(z: Zipper, n: nat)
    requires z.pos + n <= |z.entries|
    ensures Downs(z, n) == z.(pos := z.pos + n)
  {
    if n > 0 { DownsFrom(z, n - 1); }
  }
}
