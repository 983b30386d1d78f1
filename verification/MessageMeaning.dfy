/** What the parse loops compute, stated on the list of records that an input spells: of several numbers for one field
    the last one wins, repeated fields are the contributions of their records in order, packed or one at a time, and
    any other record makes the input fail.
 */
module MessageMeaning {
  import opened Wire
  import opened WireGrammar
  import opened Messages

  // ---------- The last one wins ----------

  predicate IsNumber(r: Record, tag: nat) { r.Number? && r.tag == tag }

  predicate IsBlock(r: Record, tag: nat) { r.Block? && r.tag == tag }

  /** Record `i` is the last number with this tag. */
  predicate IsLast(rs: seq<Record>, tag: nat, i: int) {
    0 <= i < |rs| && IsNumber(rs[i], tag) && NoneAfter(rs, tag, i)
  }

  predicate NoneAfter(rs: seq<Record>, tag: nat, i: int) { forall j | 0 <= j < |rs| && i < j :: !IsNumber(rs[j], tag) }

  /** `now` is what the last number with this tag says, and `was` if there is none. */
  ghost predicate LastWins<T>(rs: seq<Record>, tag: nat, read: nat -> T, was: T, now: T) {
    && (forall i | IsLast(rs, tag, i) :: now == read(rs[i].n))
    && (NoneAfter(rs, tag, -1) ==> now == was)
  }

  function Low32(n: nat): nat { n % 0x1_0000_0000 }

  function NonZero(n: nat): bool { n != 0 }

  /** The lower 32 bits as a two's complement integer. */
  function Signed32(n: nat): int {
    var low := n % 0x1_0000_0000;
    if low < 0x8000_0000 then low else low - 0x1_0000_0000
  }

  /** One record more at the front. */
  lemma LastWinsFront<T>(r: Record, rest: seq<Record>, tag: nat, read: nat -> T, was: T, mid: T, now: T)
    requires mid == if IsNumber(r, tag) then read(r.n) else was
    requires LastWins(rest, tag, read, mid, now)
    ensures LastWins([r] + rest, tag, read, was, now)
  {
    var rs := [r] + rest;
    forall i | IsLast(rs, tag, i) ensures now == read(rs[i].n) {
      NoneFront(r, rest, tag, i);
      if i > 0 { assert IsLast(rest, tag, i - 1); }
    }
    NoneFront(r, rest, tag, -1);
    NoneFront(r, rest, tag, 0);
  }

  lemma NoneFront(r: Record, rest: seq<Record>, tag: nat, i: int)
    requires -1 <= i
    ensures NoneAfter([r] + rest, tag, i) <==> (i >= 0 || !IsNumber(r, tag)) && NoneAfter(rest, tag, if i < 0 then -1 else i - 1)
  {
    var rs := [r] + rest;
    assert rs[0] == r && forall j | 0 <= j < |rest| :: rest[j] == rs[j + 1];
    if NoneAfter(rest, tag, if i < 0 then -1 else i - 1) {
      forall j | 0 <= j < |rs| && i < j && (i >= 0 || !IsNumber(r, tag)) ensures !IsNumber(rs[j], tag) {
        if j > 0 { assert rs[j] == rest[j - 1]; }
      }
    }
    if NoneAfter(rs, tag, i) {
      forall j | 0 <= j < |rest| && i - 1 < j ensures !IsNumber(rest[j], tag) { assert rs[j + 1] == rest[j]; }
    }
  }

  /** The payloads of the blocks with this tag, in order. */
  function BlocksOf(rs: seq<Record>, tag: nat): seq<Bytes> {
    if rs == [] then [] else (if IsBlock(rs[0], tag) then [rs[0].payload] else []) + BlocksOf(rs[1..], tag)
  }

  // ---------- Commands ----------

  predicate CommandKnows(r: Record) { (r.Number? && r.tag in {8, 16, 24}) || IsBlock(r, 34) }

  ghost predicate CommandMeans(rs: seq<Record>, was: Command, now: Command) {
    && LastWins(rs, 8, Low32, was.cliId, now.cliId)
    && LastWins(rs, 16, Low32, was.cliSeq, now.cliSeq)
    && LastWins(rs, 24, Low32, was.svrSeq, now.svrSeq)
    && now.commands == was.commands + BlocksOf(rs, 34)
  }

  lemma CommandFront(r: Record, rest: seq<Record>, v: Command, mid: Command, now: Command)
    requires TakeCommand(v, r) == Some(mid) && CommandMeans(rest, mid, now)
    ensures CommandMeans([r] + rest, v, now)
  {
    hide LastWins; hide BlocksOf;
    LastWinsFront(r, rest, 8, Low32, v.cliId, mid.cliId, now.cliId);
    LastWinsFront(r, rest, 16, Low32, v.cliSeq, mid.cliSeq, now.cliSeq);
    LastWinsFront(r, rest, 24, Low32, v.svrSeq, mid.svrSeq, now.svrSeq);
    StringsFront(r, rest, v, mid, now);
  }

  lemma StringsFront(r: Record, rest: seq<Record>, v: Command, mid: Command, now: Command)
    requires TakeCommand(v, r) == Some(mid) && now.commands == mid.commands + BlocksOf(rest, 34)
    ensures now.commands == v.commands + BlocksOf([r] + rest, 34)
  {
    assert ([r] + rest)[1..] == rest;
  }

  lemma {:induction false} CommandTakesAll(v: Command, rs: seq<Record>)
    ensures var m := TakeAll(TakeCommand, v, rs);
      && (m.Some? <==> forall r | r in rs :: CommandKnows(r))
      && (m.Some? ==> CommandMeans(rs, v, m.value))
    decreases |rs|
  {
    if rs == [] {
      assert v.commands + [] == v.commands;
    } else {
      var r, rest := rs[0], rs[1..];
      assert rs == [r] + rest && (TakeCommand(v, r).Some? <==> CommandKnows(r));
      hide TakeCommand; hide CommandKnows; hide CommandMeans;
      if TakeCommand(v, r).Some? {
        var mid := TakeCommand(v, r).value;
        CommandTakesAll(mid, rest);
        var m := TakeAll(TakeCommand, mid, rest);
        if m.Some? { CommandFront(r, rest, v, mid, m.value); }
      }
    }
  }

  /** Parsing any bytes into a command succeeds exactly when they spell records that a command knows, and then each
      number is the last one given and the strings are all those given, in order. */
  lemma CommandParsed(v: Command, b: Bytes)
    ensures var m := Parse(TakeCommand, v, b);
      && (m.Some? <==> exists rs :: Spells(b, rs) && forall r | r in rs :: CommandKnows(r))
      && (m.Some? ==> forall rs | Spells(b, rs) :: CommandMeans(rs, v, m.value))
  {
    forall rs | Spells(b, rs) ensures Parse(TakeCommand, v, b) == TakeAll(TakeCommand, v, rs) {
      ParseMeaning(TakeCommand, v, b, rs);
    }
    forall rs ensures var m := TakeAll(TakeCommand, v, rs);
      && (m.Some? <==> forall r | r in rs :: CommandKnows(r)) && (m.Some? ==> CommandMeans(rs, v, m.value))
    {
      CommandTakesAll(v, rs);
    }
    ParseMeaning(TakeCommand, v, b, []);
  }

  // ---------- Consensus objects ----------

  /** The numbers of a repeated field, from records with one number each and from packed payloads, in order. */
  function NumbersOf(rs: seq<Record>, one: nat, packed: nat): seq<nat> {
    if rs == [] then []
    else
      (if IsNumber(rs[0], one) then [Low32(rs[0].n)]
       else if IsBlock(rs[0], packed) && Unpack(rs[0].payload).Some? then Unpack(rs[0].payload).value
       else [])
      + NumbersOf(rs[1..], one, packed)
  }

  /** A packed field has to be a list of varints. */
  ghost predicate ConsensusKnows(r: Record) {
    || (r.Number? && r.tag in {8, 16, 24, 32, 40, 48})
    || ((IsBlock(r, 42) || IsBlock(r, 50)) && exists xs :: SpellsNumbers(r.payload, xs))
    || IsBlock(r, 58)
  }

  ghost predicate ConsensusAccepts(b: Bytes) { exists rs :: Spells(b, rs) && forall r | r in rs :: ConsensusKnows(r) }

  ghost predicate ConsensusMeans(rs: seq<Record>, was: Consensus, now: Consensus) {
    && LastWins(rs, 8, Low32, was.proId, now.proId)
    && LastWins(rs, 16, Low32, was.proSeq, now.proSeq)
    && LastWins(rs, 24, Low32, was.svrSeq, now.svrSeq)
    && LastWins(rs, 32, NonZero, was.isNull, now.isNull)
    && now.cliIds == was.cliIds + NumbersOf(rs, 40, 42)
    && now.cliSeqs == was.cliSeqs + NumbersOf(rs, 48, 50)
    && now.commands == was.commands + BlocksOf(rs, 58)
  }

  /** What one record does to the numbers. */
  lemma ConsensusFields(v: Consensus, r: Record)
    requires TakeConsensus(v, r).Some?
    ensures var mid := TakeConsensus(v, r).value;
      && mid.proId == (if IsNumber(r, 8) then Low32(r.n) else v.proId)
      && mid.proSeq == (if IsNumber(r, 16) then Low32(r.n) else v.proSeq)
      && mid.svrSeq == (if IsNumber(r, 24) then Low32(r.n) else v.svrSeq)
      && mid.isNull == if IsNumber(r, 32) then NonZero(r.n) else v.isNull
  {}

  lemma ConsensusFront(r: Record, rest: seq<Record>, v: Consensus, mid: Consensus, now: Consensus)
    requires TakeConsensus(v, r) == Some(mid) && ConsensusMeans(rest, mid, now)
    ensures ConsensusMeans([r] + rest, v, now)
  {
    hide Unpack; hide LastWins; hide BlocksOf; hide NumbersOf; hide TakeConsensus;
    ConsensusFields(v, r);
    LastWinsFront(r, rest, 8, Low32, v.proId, mid.proId, now.proId);
    LastWinsFront(r, rest, 16, Low32, v.proSeq, mid.proSeq, now.proSeq);
    LastWinsFront(r, rest, 24, Low32, v.svrSeq, mid.svrSeq, now.svrSeq);
    LastWinsFront(r, rest, 32, NonZero, v.isNull, mid.isNull, now.isNull);
    RepeatedFront(r, rest, v, mid, now);
  }

  lemma RepeatedFront(r: Record, rest: seq<Record>, v: Consensus, mid: Consensus, now: Consensus)
    requires TakeConsensus(v, r) == Some(mid)
    ensures now.cliIds == mid.cliIds + NumbersOf(rest, 40, 42) ==> now.cliIds == v.cliIds + NumbersOf([r] + rest, 40, 42)
    ensures now.cliSeqs == mid.cliSeqs + NumbersOf(rest, 48, 50) ==> now.cliSeqs == v.cliSeqs + NumbersOf([r] + rest, 48, 50)
    ensures now.commands == mid.commands + BlocksOf(rest, 58) ==> now.commands == v.commands + BlocksOf([r] + rest, 58)
  {
    hide Unpack;
    NumbersFront(r, rest, 40, 42);
    NumbersFront(r, rest, 48, 50);
    BlocksFront(r, rest, 58);
    hide NumbersOf; hide BlocksOf;
    var ids, seqs, commands := NumbersOf(rest, 40, 42), NumbersOf(rest, 48, 50), BlocksOf(rest, 58);
    assert [] + ids == ids && [] + seqs == seqs && [] + commands == commands;
    if r.Number? {
      Assoc(v.cliIds, [Low32(r.n)], ids);
      Assoc(v.cliSeqs, [Low32(r.n)], seqs);
    } else {
      Assoc(v.commands, [r.payload], commands);
      var xs := Unpack(r.payload);
      if xs.Some? {
        Assoc(v.cliIds, xs.value, ids);
        Assoc(v.cliSeqs, xs.value, seqs);
      }
    }
  }

  lemma Assoc<T>(a: seq<T>, b: seq<T>, c: seq<T>)
    ensures (a + b) + c == a + (b + c)
  {}

  lemma NumbersFront(r: Record, rest: seq<Record>, one: nat, packed: nat)
    ensures NumbersOf([r] + rest, one, packed) ==
      (if IsNumber(r, one) then [Low32(r.n)]
       else if IsBlock(r, packed) && Unpack(r.payload).Some? then Unpack(r.payload).value
       else []) + NumbersOf(rest, one, packed)
  {
    assert ([r] + rest)[1..] == rest;
  }

  lemma BlocksFront(r: Record, rest: seq<Record>, tag: nat)
    ensures BlocksOf([r] + rest, tag) == (if IsBlock(r, tag) then [r.payload] else []) + BlocksOf(rest, tag)
  {
    assert ([r] + rest)[1..] == rest;
  }

  lemma ConsensusKnown(v: Consensus, r: Record)
    ensures TakeConsensus(v, r).Some? <==> ConsensusKnows(r)
  {
    if r.Block? {
      if Unpack(r.payload).Some? { UnpackIff(r.payload, Unpack(r.payload).value); }
      forall xs | SpellsNumbers(r.payload, xs) ensures Unpack(r.payload).Some? { UnpackIff(r.payload, xs); }
    }
    hide Unpack; hide SpellsNumbers;
  }

  lemma {:induction false} ConsensusTakesAll(v: Consensus, rs: seq<Record>)
    ensures var m := TakeAll(TakeConsensus, v, rs);
      && (m.Some? <==> forall r | r in rs :: ConsensusKnows(r))
      && (m.Some? ==> ConsensusMeans(rs, v, m.value))
    decreases |rs|
  {
    if rs == [] {
      assert v.commands + [] == v.commands && v.cliIds + [] == v.cliIds && v.cliSeqs + [] == v.cliSeqs;
    } else {
      var r, rest := rs[0], rs[1..];
      assert rs == [r] + rest;
      ConsensusKnown(v, r);
      hide TakeConsensus; hide ConsensusKnows; hide ConsensusMeans;
      if TakeConsensus(v, r).Some? {
        var mid := TakeConsensus(v, r).value;
        ConsensusTakesAll(mid, rest);
        var m := TakeAll(TakeConsensus, mid, rest);
        if m.Some? { ConsensusFront(r, rest, v, mid, m.value); }
      }
    }
  }

  /** Parsing any bytes into a consensus object succeeds exactly when they spell records that it knows, and then each
      number is the last one given and each repeated field has all that were given, in order. */
  lemma ConsensusParsed(v: Consensus, b: Bytes)
    ensures var m := Parse(TakeConsensus, v, b);
      && (m.Some? <==> ConsensusAccepts(b))
      && (m.Some? ==> forall rs | Spells(b, rs) :: ConsensusMeans(rs, v, m.value))
  {
    hide TakeConsensus; hide ConsensusKnows; hide ConsensusMeans; hide Parse; hide TakeAll;
    forall rs | Spells(b, rs) ensures Parse(TakeConsensus, v, b) == TakeAll(TakeConsensus, v, rs) {
      ParseMeaning(TakeConsensus, v, b, rs);
    }
    forall rs ensures var m := TakeAll(TakeConsensus, v, rs);
      && (m.Some? <==> forall r | r in rs :: ConsensusKnows(r)) && (m.Some? ==> ConsensusMeans(rs, v, m.value))
    {
      ConsensusTakesAll(v, rs);
    }
    ParseMeaning(TakeConsensus, v, b, []);
  }

  // ---------- Messages ----------

  /** The embedded object has to be one that parses. */
  ghost predicate MsgKnows(r: Record) {
    || (r.Number? && r.tag in {8, 16, 24})
    || (IsBlock(r, 34) && ConsensusAccepts(r.payload))
  }

  /** The records of all embedded objects, in order. */
  function Embedded(rs: seq<Record>): seq<Record> {
    if rs == [] then []
    else (if IsBlock(rs[0], 34) && Split(rs[0].payload).Some? then Split(rs[0].payload).value else []) + Embedded(rs[1..])
  }

  predicate HasObject(rs: seq<Record>) { exists r :: r in rs && IsBlock(r, 34) }

  /** The embedded object, if any is given, means all the records of all embedded objects together. */
  ghost predicate MsgMeans(rs: seq<Record>, was: Msg, now: Msg) {
    && LastWins(rs, 8, Signed32, was.kind, now.kind)
    && LastWins(rs, 16, Low32, was.phase, now.phase)
    && LastWins(rs, 24, Low32, was.val, now.val)
    && if HasObject(rs) then now.obj.Some? && ConsensusMeans(Embedded(rs), ObjectIn(was), now.obj.value) else now.obj == was.obj
  }

  function ObjectIn(m: Msg): Consensus { if m.obj.Some? then m.obj.value else NO_CONSENSUS }

  /** What `MsgMeans` says, with the embedded object as what its records make of it. */
  ghost predicate MsgTakesIn(rs: seq<Record>, was: Msg, now: Msg) {
    && LastWins(rs, 8, Signed32, was.kind, now.kind)
    && LastWins(rs, 16, Low32, was.phase, now.phase)
    && LastWins(rs, 24, Low32, was.val, now.val)
    && ObjectTakesIn(rs, was, now)
  }

  ghost predicate ObjectTakesIn(rs: seq<Record>, was: Msg, now: Msg) {
    if HasObject(rs) then now.obj.Some? && now.obj == TakeAll(TakeConsensus, ObjectIn(was), Embedded(rs))
    else now.obj == was.obj && Embedded(rs) == []
  }

  lemma EmbeddedFront(r: Record, rest: seq<Record>)
    ensures Embedded([r] + rest) ==
      (if IsBlock(r, 34) && Split(r.payload).Some? then Split(r.payload).value else []) + Embedded(rest)
    ensures HasObject([r] + rest) <==> IsBlock(r, 34) || HasObject(rest)
  {
    assert ([r] + rest)[1..] == rest;
    if IsBlock(r, 34) { assert r in [r] + rest; }
    if HasObject(rest) { var q :| q in rest && IsBlock(q, 34); assert q in [r] + rest; }
  }

  /** The embedded object that one record brings. */
  lemma ObjectFront(r: Record, rest: seq<Record>, v: Msg, mid: Msg, now: Msg)
    requires TakeMsg(v, r) == Some(mid) && ObjectTakesIn(rest, mid, now)
    ensures ObjectTakesIn([r] + rest, v, now)
  {
    EmbeddedFront(r, rest);
    hide Embedded; hide HasObject; hide TakeConsensus;
    if IsBlock(r, 34) {
      ParseSplit(TakeConsensus, ObjectIn(v), r.payload);
      hide Parse;
      TakeConcat(TakeConsensus, ObjectIn(v), Split(r.payload).value, Embedded(rest));
    } else {
      assert mid.obj == v.obj;
      assert [] + Embedded(rest) == Embedded(rest);
    }
  }

  lemma MsgFront(r: Record, rest: seq<Record>, v: Msg, mid: Msg, now: Msg)
    requires TakeMsg(v, r) == Some(mid) && MsgTakesIn(rest, mid, now)
    ensures MsgTakesIn([r] + rest, v, now)
  {
    ObjectFront(r, rest, v, mid, now);
    hide Parse; hide ObjectTakesIn; hide LastWins;
    LastWinsFront(r, rest, 8, Signed32, v.kind, mid.kind, now.kind);
    LastWinsFront(r, rest, 16, Low32, v.phase, mid.phase, now.phase);
    LastWinsFront(r, rest, 24, Low32, v.val, mid.val, now.val);
  }

  lemma MsgKnown(v: Msg, r: Record)
    ensures TakeMsg(v, r).Some? <==> MsgKnows(r)
  {
    if IsBlock(r, 34) {
      assert TakeMsg(v, r).Some? <==> Parse(TakeConsensus, ObjectIn(v), r.payload).Some?;
      ConsensusParsed(ObjectIn(v), r.payload);
      hide TakeMsg; hide Parse; hide ConsensusMeans; hide ConsensusAccepts;
    }
  }

  lemma {:induction false} MsgTakesAll(v: Msg, rs: seq<Record>)
    ensures var m := TakeAll(TakeMsg, v, rs);
      && (m.Some? <==> forall r | r in rs :: MsgKnows(r))
      && (m.Some? ==> MsgTakesIn(rs, v, m.value))
    decreases |rs|
  {
    if rs != [] {
      var r, rest := rs[0], rs[1..];
      assert rs == [r] + rest;
      MsgKnown(v, r);
      hide TakeMsg; hide MsgKnows; hide MsgTakesIn;
      if TakeMsg(v, r).Some? {
        var mid := TakeMsg(v, r).value;
        MsgTakesAll(mid, rest);
        var m := TakeAll(TakeMsg, mid, rest);
        if m.Some? { MsgFront(r, rest, v, mid, m.value); }
      }
    }
  }

  lemma MsgMeansThat(rs: seq<Record>, v: Msg, m: Msg)
    requires MsgTakesIn(rs, v, m)
    ensures MsgMeans(rs, v, m)
  {
    ConsensusTakesAll(ObjectIn(v), Embedded(rs));
    hide ConsensusMeans; hide LastWins; hide TakeAll; hide ConsensusKnows;
  }

  /** Parsing any bytes into a message succeeds exactly when they spell records that it knows, embedded objects
      included. Then each number is the last one given, the enumeration as a signed 32-bit integer, and the embedded
      object means all the records of all embedded objects together. */
  lemma MsgParsed(v: Msg, b: Bytes)
    ensures var m := Parse(TakeMsg, v, b);
      && (m.Some? <==> exists rs :: Spells(b, rs) && forall r | r in rs :: MsgKnows(r))
      && (m.Some? ==> forall rs | Spells(b, rs) :: MsgMeans(rs, v, m.value))
  {
    hide TakeMsg; hide MsgKnows; hide MsgMeans; hide Parse; hide TakeAll; hide MsgTakesIn;
    forall rs | Spells(b, rs) ensures Parse(TakeMsg, v, b) == TakeAll(TakeMsg, v, rs) {
      ParseMeaning(TakeMsg, v, b, rs);
    }
    forall rs ensures var m := TakeAll(TakeMsg, v, rs);
      && (m.Some? <==> forall r | r in rs :: MsgKnows(r)) && (m.Some? ==> MsgMeans(rs, v, m.value))
    {
      MsgTakesAll(v, rs);
      if TakeAll(TakeMsg, v, rs).Some? { MsgMeansThat(rs, v, TakeAll(TakeMsg, v, rs).value); }
    }
    ParseMeaning(TakeMsg, v, b, []);
  }

  // ---------- What is written ----------

  /** Of the fields of a message: which hold a number, which packed numbers, and which strings or an object. */
  datatype Layout = Layout(numbers: set<nat>, packed: set<nat>, blocks: nat)

  const COMMAND := Layout({8, 16, 24}, {}, 34)
  const CONSENSUS := Layout({8, 16, 24, 32}, {42, 50}, 58)
  const MSG := Layout({8, 16, 24}, {}, 34)

  /** Fields in the order of their tags, from `lo` to `hi`, each at most once but for the last, and none that is empty. */
  ghost predicate Canonical(rs: seq<Record>, l: Layout, lo: nat, hi: nat) {
    && (forall i, j | 0 <= i < j < |rs| :: rs[i].tag < rs[j].tag || rs[i].tag == rs[j].tag == l.blocks)
    && forall i | 0 <= i < |rs| :: lo <= rs[i].tag <= hi && Given(rs[i], l)
  }

  predicate Given(r: Record, l: Layout) {
    match r
    case Number(tag, n) => tag in l.numbers && n != 0
    case Block(tag, s) => tag == l.blocks || (tag in l.packed && s != [])
  }

  lemma FieldCanonical(tag: nat, n: nat, l: Layout)
    requires tag in l.numbers
    ensures Canonical(Field(tag, n), l, tag, tag)
  {}

  lemma {:induction false} BlocksCanonical(tag: nat, ss: seq<Bytes>, l: Layout)
    requires tag == l.blocks
    ensures Canonical(Blocks(tag, ss), l, tag, tag)
  {
    if ss != [] { BlocksCanonical(tag, ss[1..], l); }
  }

  lemma PackedCanonical(tag: nat, xs: seq<nat>, l: Layout)
    requires tag in l.packed
    ensures Canonical(Packed(tag, xs), l, tag, tag)
  {
    if xs != [] { VarintSizeIsLength(xs[0]); }
  }

  /** Later fields. */
  lemma BothCanonical(a: seq<Record>, b: seq<Record>, l: Layout, lo: nat, mid: nat, next: nat, hi: nat)
    requires Canonical(a, l, lo, mid) && Canonical(b, l, next, hi) && lo <= mid < next <= hi
    ensures Canonical(a + b, l, lo, hi)
  {
    hide Given;
  }

  /** A command is written in the order of its tags, without zeroes. */
  lemma CommandWritten(m: Command)
    ensures Canonical(CommandRecords(m), COMMAND, 8, 34)
  {
    hide Field; hide Blocks; hide Canonical;
    var a, b, c, d := Field(8, m.cliId), Field(16, m.cliSeq), Field(24, m.svrSeq), Blocks(34, m.commands);
    FieldCanonical(8, m.cliId, COMMAND);
    FieldCanonical(16, m.cliSeq, COMMAND);
    FieldCanonical(24, m.svrSeq, COMMAND);
    BlocksCanonical(34, m.commands, COMMAND);
    BothCanonical(a, b, COMMAND, 8, 8, 16, 16);
    BothCanonical(a + b, c, COMMAND, 8, 16, 24, 24);
    BothCanonical(a + b + c, d, COMMAND, 8, 24, 34, 34);
  }

  /** So is a consensus object, with its repeated numbers packed. */
  lemma ConsensusWritten(m: Consensus)
    ensures Canonical(ConsensusRecords(m), CONSENSUS, 8, 58)
  {
    hide Field; hide Blocks; hide Canonical; hide Packed;
    var flag := if m.isNull then 1 else 0;
    var a, b, c, d := Field(8, m.proId), Field(16, m.proSeq), Field(24, m.svrSeq), Field(32, flag);
    var e, f, g := Packed(42, m.cliIds), Packed(50, m.cliSeqs), Blocks(58, m.commands);
    FieldCanonical(8, m.proId, CONSENSUS);
    FieldCanonical(16, m.proSeq, CONSENSUS);
    FieldCanonical(24, m.svrSeq, CONSENSUS);
    FieldCanonical(32, flag, CONSENSUS);
    PackedCanonical(42, m.cliIds, CONSENSUS);
    PackedCanonical(50, m.cliSeqs, CONSENSUS);
    BlocksCanonical(58, m.commands, CONSENSUS);
    BothCanonical(a, b, CONSENSUS, 8, 8, 16, 16);
    BothCanonical(a + b, c, CONSENSUS, 8, 16, 24, 24);
    BothCanonical(a + b + c, d, CONSENSUS, 8, 24, 32, 32);
    BothCanonical(a + b + c + d, e, CONSENSUS, 8, 32, 42, 42);
    BothCanonical(a + b + c + d + e, f, CONSENSUS, 8, 42, 50, 50);
    BothCanonical(a + b + c + d + e + f, g, CONSENSUS, 8, 50, 58, 58);
  }

  /** So is a message, with one embedded object at the most. */
  lemma MsgWritten(m: Msg)
    requires ValidMsg(m)
    ensures Canonical(MsgRecords(m), MSG, 8, 34) && (m.obj.Some? <==> HasObject(MsgRecords(m)))
    ensures forall i, j | 0 <= i < j < |MsgRecords(m)| :: MsgRecords(m)[i].tag < MsgRecords(m)[j].tag
  {
    var plain := PlainRecords(m);
    PlainWritten(m);
    if m.obj.None? {
      assert MsgRecords(m) == plain;
    } else {
      var s := EncodeAll(ConsensusRecords(m.obj.value));
      OneBlock(s);
      hide EncodeAll; hide ConsensusRecords; hide Field;
      assert MsgRecords(m) == plain + [Block(34, s)] && MsgRecords(m)[|plain|] == Block(34, s);
      assert IsBlock(Block(34, s), 34);
      BothCanonical(plain, [Block(34, s)], MSG, 8, 24, 34, 34);
    }
  }

  lemma PlainWritten(m: Msg)
    requires ValidMsg(m)
    ensures Canonical(PlainRecords(m), MSG, 8, 24)
  {
    hide Field; hide Canonical; hide Extended; hide ValidConsensus; hide EncodeAll;
    var kind := Extended(m.kind);
    FieldCanonical(8, kind, MSG);
    FieldCanonical(16, m.phase, MSG);
    FieldCanonical(24, m.val, MSG);
    BothCanonical(Field(8, kind), Field(16, m.phase), MSG, 8, 8, 16, 16);
    BothCanonical(Field(8, kind) + Field(16, m.phase), Field(24, m.val), MSG, 8, 16, 24, 24);
  }

  lemma OneBlock(s: Bytes)
    ensures Canonical([Block(34, s)], MSG, 34, 34)
  {}
}
