/** The messages of the schema as values: the records each is written as, the switch that takes a record in, and
    merging. */
module Messages {
  import opened Wire

  datatype Command = Command(cliId: nat, cliSeq: nat, svrSeq: nat, commands: seq<Bytes>)

  datatype Consensus = Consensus(proId: nat, proSeq: nat, svrSeq: nat, isNull: bool, cliIds: seq<nat>, cliSeqs: seq<nat>,
                                 commands: seq<Bytes>)

  /** `kind` is the enumeration, which on the wire may be any 32-bit integer. */
  datatype Msg = Msg(kind: int, phase: nat, val: nat, obj: Option<Consensus>)

  const NO_COMMAND := Command(0, 0, 0, [])
  const NO_CONSENSUS := Consensus(0, 0, 0, false, [], [], [])
  const NO_MSG := Msg(0, 0, 0, None)

  // ---------- What is written ----------

  /** A number is written unless it is zero. */
  function Field(tag: nat, n: nat): seq<Record> { if n == 0 then [] else [Number(tag, n)] }

  function Blocks(tag: nat, ss: seq<Bytes>): seq<Record> {
    if ss == [] then [] else [Block(tag, ss[0])] + Blocks(tag, ss[1..])
  }

  function Packed(tag: nat, xs: seq<nat>): seq<Record> { if xs == [] then [] else [Block(tag, Pack(xs))] }

  function CommandRecords(m: Command): seq<Record> {
    Field(8, m.cliId) + Field(16, m.cliSeq) + Field(24, m.svrSeq) + Blocks(34, m.commands)
  }

  function ConsensusRecords(m: Consensus): seq<Record> {
    Field(8, m.proId) + Field(16, m.proSeq) + Field(24, m.svrSeq) + Field(32, if m.isNull then 1 else 0)
    + Packed(42, m.cliIds) + Packed(50, m.cliSeqs) + Blocks(58, m.commands)
  }

  /** A negative enumeration value is extended to 64 bits. */
  function Extended(kind: int): nat
    requires -0x8000_0000 <= kind
  {
    if kind < 0 then kind + UINT64 else kind
  }

  function Truncated(n: nat): int {
    var low := n % UINT32;
    if low >= 0x8000_0000 then low - UINT32 else low
  }

  function MsgRecords(m: Msg): seq<Record>
    requires -0x8000_0000 <= m.kind
  {
    Field(8, Extended(m.kind)) + Field(16, m.phase) + Field(24, m.val)
    + if m.obj.None? then [] else [Block(34, EncodeAll(ConsensusRecords(m.obj.value)))]
  }

  predicate Strings(ss: seq<Bytes>) { forall s | s in ss :: |s| < UINT64 }

  ghost predicate ValidCommand(m: Command) {
    m.cliId < UINT32 && m.cliSeq < UINT32 && m.svrSeq < UINT32 && Strings(m.commands)
  }

  ghost predicate ValidConsensus(m: Consensus) {
    && m.proId < UINT32 && m.proSeq < UINT32 && m.svrSeq < UINT32 && Strings(m.commands)
    && Words(m.cliIds) && Words(m.cliSeqs) && |Pack(m.cliIds)| < UINT64 && |Pack(m.cliSeqs)| < UINT64
  }

  ghost predicate ValidMsg(m: Msg) {
    && -0x8000_0000 <= m.kind < 0x8000_0000 && m.phase < UINT32 && m.val < UINT32
    && (m.obj.Some? ==> ValidConsensus(m.obj.value) && |EncodeAll(ConsensusRecords(m.obj.value))| < UINT64)
  }

  // ---------- What is read ----------

  function TakeCommand(v: Command, r: Record): Option<Command> {
    match r
    case Number(tag, n) =>
      if tag == 8 then Some(v.(cliId := n % UINT32))
      else if tag == 16 then Some(v.(cliSeq := n % UINT32))
      else if tag == 24 then Some(v.(svrSeq := n % UINT32))
      else None
    case Block(tag, s) => if tag == 34 then Some(v.(commands := v.commands + [s])) else None
  }

  /** Repeated numbers may come packed or one at a time. */
  function TakeConsensus(v: Consensus, r: Record): Option<Consensus> {
    match r
    case Number(tag, n) =>
      if tag == 8 then Some(v.(proId := n % UINT32))
      else if tag == 16 then Some(v.(proSeq := n % UINT32))
      else if tag == 24 then Some(v.(svrSeq := n % UINT32))
      else if tag == 32 then Some(v.(isNull := n != 0))
      else if tag == 40 then Some(v.(cliIds := v.cliIds + [n % UINT32]))
      else if tag == 48 then Some(v.(cliSeqs := v.cliSeqs + [n % UINT32]))
      else None
    case Block(tag, s) =>
      if tag == 42 then
        var xs := Unpack(s); if xs.None? then None else Some(v.(cliIds := v.cliIds + xs.value))
      else if tag == 50 then
        var xs := Unpack(s); if xs.None? then None else Some(v.(cliSeqs := v.cliSeqs + xs.value))
      else if tag == 58 then Some(v.(commands := v.commands + [s]))
      else None
  }

  function TakeMsg(v: Msg, r: Record): Option<Msg> {
    match r
    case Number(tag, n) =>
      if tag == 8 then Some(v.(kind := Truncated(n)))
      else if tag == 16 then Some(v.(phase := n % UINT32))
      else if tag == 24 then Some(v.(val := n % UINT32))
      else None
    case Block(tag, s) =>
      if tag == 34 then
        var obj := Parse(TakeConsensus, if v.obj.Some? then v.obj.value else NO_CONSENSUS, s);
        if obj.None? then None else Some(v.(obj := obj))
      else None
  }

  // ---------- Merging ----------

  function Newer(was: nat, now: nat): nat { if now != 0 then now else was }

  function MergeCommand(v: Command, m: Command): Command {
    Command(Newer(v.cliId, m.cliId), Newer(v.cliSeq, m.cliSeq), Newer(v.svrSeq, m.svrSeq), v.commands + m.commands)
  }

  function MergeConsensus(v: Consensus, m: Consensus): Consensus {
    Consensus(Newer(v.proId, m.proId), Newer(v.proSeq, m.proSeq), Newer(v.svrSeq, m.svrSeq), v.isNull || m.isNull,
              v.cliIds + m.cliIds, v.cliSeqs + m.cliSeqs, v.commands + m.commands)
  }

  function MergeMsg(v: Msg, m: Msg): Msg {
    Msg(if m.kind != 0 then m.kind else v.kind, Newer(v.phase, m.phase), Newer(v.val, m.val),
        if m.obj.None? then v.obj
        else Some(MergeConsensus(if v.obj.Some? then v.obj.value else NO_CONSENSUS, m.obj.value)))
  }

  // ---------- Taking in what was written ----------

  lemma TakeField<V>(take: (V, Record) -> Option<V>, v: V, tag: nat, n: nat)
    ensures TakeAll(take, v, Field(tag, n)) == if n == 0 then Some(v) else take(v, Number(tag, n))
  {
    if n != 0 { assert Field(tag, n)[1..] == []; }
  }

  lemma TakeOne<V>(take: (V, Record) -> Option<V>, v: V, r: Record)
    ensures TakeAll(take, v, [r]) == take(v, r)
  {
    assert [r][1..] == [];
  }

  lemma {:induction false} TakeCommandBlocks(v: Command, ss: seq<Bytes>)
    ensures TakeAll(TakeCommand, v, Blocks(34, ss)) == Some(v.(commands := v.commands + ss))
    decreases |ss|
  {
    if ss == [] {
      assert v.commands + ss == v.commands;
    } else {
      var next := v.(commands := v.commands + [ss[0]]);
      TakeCommandBlocks(next, ss[1..]);
      assert Blocks(34, ss)[1..] == Blocks(34, ss[1..]);
      assert v.commands + [ss[0]] + ss[1..] == v.commands + ss;
    }
  }

  lemma {:induction false} TakeConsensusBlocks(v: Consensus, ss: seq<Bytes>)
    ensures TakeAll(TakeConsensus, v, Blocks(58, ss)) == Some(v.(commands := v.commands + ss))
    decreases |ss|
  {
    if ss == [] {
      assert v.commands + ss == v.commands;
    } else {
      var next := v.(commands := v.commands + [ss[0]]);
      TakeConsensusBlocks(next, ss[1..]);
      assert Blocks(58, ss)[1..] == Blocks(58, ss[1..]);
      assert v.commands + [ss[0]] + ss[1..] == v.commands + ss;
    }
  }

  /** Taking in the records of `m` is merging `m`. */
  lemma CommandTakes(v: Command, m: Command)
    requires ValidCommand(m)
    ensures TakeAll(TakeCommand, v, CommandRecords(m)) == Some(MergeCommand(v, m))
  {
    hide TakeAll; hide Field; hide Blocks;
    var v1 := v.(cliId := Newer(v.cliId, m.cliId));
    var v2 := v1.(cliSeq := Newer(v.cliSeq, m.cliSeq));
    var v3 := v2.(svrSeq := Newer(v.svrSeq, m.svrSeq));
    var a, b, c := Field(8, m.cliId), Field(16, m.cliSeq), Field(24, m.svrSeq);
    TakeField(TakeCommand, v, 8, m.cliId);
    TakeField(TakeCommand, v1, 16, m.cliSeq);
    TakeField(TakeCommand, v2, 24, m.svrSeq);
    TakeCommandBlocks(v3, m.commands);
    TakeConcat(TakeCommand, v, a, b);
    TakeConcat(TakeCommand, v, a + b, c);
    TakeConcat(TakeCommand, v, a + b + c, Blocks(34, m.commands));
  }

  lemma PackedTakes(v: Consensus, xs: seq<nat>)
    requires Words(xs)
    ensures TakeAll(TakeConsensus, v, Packed(42, xs)) == Some(v.(cliIds := v.cliIds + xs))
    ensures TakeAll(TakeConsensus, v, Packed(50, xs)) == Some(v.(cliSeqs := v.cliSeqs + xs))
  {
    if xs == [] {
      assert v.cliIds + xs == v.cliIds && v.cliSeqs + xs == v.cliSeqs;
    } else {
      PackRoundTrip(xs);
      TakeOne(TakeConsensus, v, Block(42, Pack(xs)));
      TakeOne(TakeConsensus, v, Block(50, Pack(xs)));
    }
  }

  lemma ConsensusTakes(v: Consensus, m: Consensus)
    requires ValidConsensus(m)
    ensures TakeAll(TakeConsensus, v, ConsensusRecords(m)) == Some(MergeConsensus(v, m))
  {
    hide TakeAll; hide Field; hide Blocks; hide Packed; hide Pack;
    var flag := if m.isNull then 1 else 0;
    var v1 := v.(proId := Newer(v.proId, m.proId));
    var v2 := v1.(proSeq := Newer(v.proSeq, m.proSeq));
    var v3 := v2.(svrSeq := Newer(v.svrSeq, m.svrSeq));
    var v4 := v3.(isNull := v.isNull || m.isNull);
    var v5 := v4.(cliIds := v.cliIds + m.cliIds);
    var v6 := v5.(cliSeqs := v.cliSeqs + m.cliSeqs);
    var a, b, c, d := Field(8, m.proId), Field(16, m.proSeq), Field(24, m.svrSeq), Field(32, flag);
    var e, f, g := Packed(42, m.cliIds), Packed(50, m.cliSeqs), Blocks(58, m.commands);
    TakeField(TakeConsensus, v, 8, m.proId);
    TakeField(TakeConsensus, v1, 16, m.proSeq);
    TakeField(TakeConsensus, v2, 24, m.svrSeq);
    TakeField(TakeConsensus, v3, 32, flag);
    PackedTakes(v4, m.cliIds);
    PackedTakes(v5, m.cliSeqs);
    TakeConsensusBlocks(v6, m.commands);
    TakeConcat(TakeConsensus, v, a, b);
    TakeConcat(TakeConsensus, v, a + b, c);
    TakeConcat(TakeConsensus, v, a + b + c, d);
    TakeConcat(TakeConsensus, v, a + b + c + d, e);
    TakeConcat(TakeConsensus, v, a + b + c + d + e, f);
    TakeConcat(TakeConsensus, v, a + b + c + d + e + f, g);
  }

  // ---------- Main results ----------

  lemma {:induction false} BlocksWritable(tag: nat, ss: seq<Bytes>)
    requires Strings(ss) && tag < UINT32 && tag % 8 == 2
    ensures forall r | r in Blocks(tag, ss) :: Writable(r)
  {
    if ss != [] {
      assert ss[0] in ss && forall s | s in ss[1..] :: s in ss;
      BlocksWritable(tag, ss[1..]);
    }
  }

  /** Parsing an encoded command into `v` merges it, and leaves the rest to be parsed. */
  lemma CommandParse(v: Command, m: Command, rest: Bytes)
    requires ValidCommand(m)
    ensures Parse(TakeCommand, v, EncodeAll(CommandRecords(m)) + rest) ==
      Parse(TakeCommand,
            Command(if m.cliId != 0 then m.cliId else v.cliId, if m.cliSeq != 0 then m.cliSeq else v.cliSeq,
                    if m.svrSeq != 0 then m.svrSeq else v.svrSeq, v.commands + m.commands), rest)
  {
    CommandTakes(v, m);
    BlocksWritable(34, m.commands);
    ParseEncoded(TakeCommand, v, CommandRecords(m), rest);
  }

  lemma ConsensusWritable(m: Consensus)
    requires ValidConsensus(m)
    ensures forall r | r in ConsensusRecords(m) :: Writable(r)
  {
    BlocksWritable(58, m.commands);
    hide Blocks; hide Pack;
  }

  lemma ConsensusParse(v: Consensus, m: Consensus, rest: Bytes)
    requires ValidConsensus(m)
    ensures Parse(TakeConsensus, v, EncodeAll(ConsensusRecords(m)) + rest) ==
      Parse(TakeConsensus,
            Consensus(if m.proId != 0 then m.proId else v.proId, if m.proSeq != 0 then m.proSeq else v.proSeq,
                      if m.svrSeq != 0 then m.svrSeq else v.svrSeq, v.isNull || m.isNull,
                      v.cliIds + m.cliIds, v.cliSeqs + m.cliSeqs, v.commands + m.commands), rest)
  {
    ConsensusTakes(v, m);
    ConsensusWritable(m);
    hide TakeAll; hide Parse; hide EncodeAll; hide TakeConsensus; hide ConsensusRecords; hide Writable;
    ParseEncoded(TakeConsensus, v, ConsensusRecords(m), rest);
  }

  /** The enumeration survives the extension to 64 bits and the cut back to 32. */
  lemma KindSurvives(kind: int)
    requires -0x8000_0000 <= kind < 0x8000_0000
    ensures Truncated(Extended(kind)) == kind && Extended(kind) < UINT64 && (Extended(kind) == 0 <==> kind == 0)
  {}

  /** The records without the embedded message. */
  function PlainRecords(m: Msg): seq<Record>
    requires ValidMsg(m)
  {
    Field(8, Extended(m.kind)) + Field(16, m.phase) + Field(24, m.val)
  }

  function MergePlain(v: Msg, m: Msg): Msg {
    v.(kind := if m.kind != 0 then m.kind else v.kind, phase := Newer(v.phase, m.phase), val := Newer(v.val, m.val))
  }

  lemma PlainTakes(v: Msg, m: Msg)
    requires ValidMsg(m)
    ensures TakeAll(TakeMsg, v, PlainRecords(m)) == Some(MergePlain(v, m))
  {
    KindSurvives(m.kind);
    hide TakeAll; hide Field; hide EncodeAll; hide ConsensusRecords; hide Parse; hide Extended; hide Truncated; hide MergeConsensus;
    var v1 := v.(kind := if m.kind != 0 then m.kind else v.kind);
    var v2 := v1.(phase := Newer(v.phase, m.phase));
    var v3 := v2.(val := Newer(v.val, m.val));
    var a, b, c := Field(8, Extended(m.kind)), Field(16, m.phase), Field(24, m.val);
    TakeField(TakeMsg, v, 8, Extended(m.kind));
    TakeField(TakeMsg, v1, 16, m.phase);
    TakeField(TakeMsg, v2, 24, m.val);
    TakeConcat(TakeMsg, v, a, b);
    TakeConcat(TakeMsg, v, a + b, c);
  }

  lemma MsgTakes(v: Msg, m: Msg)
    requires ValidMsg(m)
    ensures TakeAll(TakeMsg, v, MsgRecords(m)) == Some(MergeMsg(v, m))
  {
    PlainTakes(v, m);
    hide TakeAll; hide Field; hide EncodeAll; hide ConsensusRecords; hide Parse; hide Extended; hide MergeConsensus; hide TakeMsg;
    if m.obj.None? {
      assert MsgRecords(m) == PlainRecords(m);
    } else {
      ObjTakes(MergePlain(v, m), m.obj.value);
      TakeConcat(TakeMsg, v, PlainRecords(m), [Block(34, EncodeAll(ConsensusRecords(m.obj.value)))]);
    }
  }

  /** The embedded message is merged into the one that is there, or into an empty one. */
  lemma ObjTakes(v: Msg, obj: Consensus)
    requires ValidConsensus(obj)
    ensures TakeAll(TakeMsg, v, [Block(34, EncodeAll(ConsensusRecords(obj)))])
      == Some(v.(obj := Some(MergeConsensus(if v.obj.Some? then v.obj.value else NO_CONSENSUS, obj))))
  {
    hide TakeAll; hide EncodeAll; hide ConsensusRecords; hide Parse; hide MergeConsensus; hide ValidConsensus;
    TakeOne(TakeMsg, v, Block(34, EncodeAll(ConsensusRecords(obj))));
    ObjParse(v, obj);
  }

  lemma NothingMore<V>(take: (V, Record) -> Option<V>, v: V)
    ensures Parse(take, v, []) == Some(v)
  {}

  lemma MsgParse(v: Msg, m: Msg, rest: Bytes)
    requires ValidMsg(m)
    ensures Parse(TakeMsg, v, EncodeAll(MsgRecords(m)) + rest) ==
      Parse(TakeMsg,
            Msg(if m.kind != 0 then m.kind else v.kind, if m.phase != 0 then m.phase else v.phase,
                if m.val != 0 then m.val else v.val,
                if m.obj.None? then v.obj
                else Parse(TakeConsensus, if v.obj.Some? then v.obj.value else NO_CONSENSUS,
                           EncodeAll(ConsensusRecords(m.obj.value)))), rest)
  {
    MsgTakes(v, m);
    KindSurvives(m.kind);
    hide TakeAll; hide EncodeAll; hide TakeMsg; hide Parse; hide MergeConsensus; hide ConsensusRecords; hide Extended; hide ValidConsensus;
    if m.obj.Some? { ObjParse(v, m.obj.value); }
    MsgWritable(m);
    hide Writable; hide MsgRecords; hide Field;
    ParseEncoded(TakeMsg, v, MsgRecords(m), rest);
  }

  lemma MsgWritable(m: Msg)
    requires ValidMsg(m)
    ensures forall r | r in MsgRecords(m) :: Writable(r)
  {
    KindSurvives(m.kind);
  }

  /** Parsing an embedded object on its own. */
  lemma ObjParse(v: Msg, obj: Consensus)
    requires ValidConsensus(obj)
    ensures var was := if v.obj.Some? then v.obj.value else NO_CONSENSUS;
      Parse(TakeConsensus, was, EncodeAll(ConsensusRecords(obj))) == Some(MergeConsensus(was, obj))
  {
    hide EncodeAll; hide ConsensusRecords; hide Parse; hide ValidConsensus;
    var was := if v.obj.Some? then v.obj.value else NO_CONSENSUS;
    ConsensusParse(was, obj, []);
    assert EncodeAll(ConsensusRecords(obj)) + [] == EncodeAll(ConsensusRecords(obj));
    NothingMore(TakeConsensus, MergeConsensus(was, obj));
  }

  /** Parse undoes serialize. */
  lemma CommandRoundTrip(m: Command)
    requires ValidCommand(m)
    ensures Parse(TakeCommand, NO_COMMAND, EncodeAll(CommandRecords(m))) == Some(m)
  {
    hide EncodeAll; hide CommandRecords;
    CommandParse(NO_COMMAND, m, []);
    assert EncodeAll(CommandRecords(m)) + [] == EncodeAll(CommandRecords(m));
    assert MergeCommand(NO_COMMAND, m) == m;
  }

  lemma ConsensusRoundTrip(m: Consensus)
    requires ValidConsensus(m)
    ensures Parse(TakeConsensus, NO_CONSENSUS, EncodeAll(ConsensusRecords(m))) == Some(m)
  {
    hide EncodeAll; hide ConsensusRecords;
    ConsensusParse(NO_CONSENSUS, m, []);
    assert EncodeAll(ConsensusRecords(m)) + [] == EncodeAll(ConsensusRecords(m));
    assert MergeConsensus(NO_CONSENSUS, m) == m;
  }

  lemma MsgRoundTrip(m: Msg)
    requires ValidMsg(m)
    ensures Parse(TakeMsg, NO_MSG, EncodeAll(MsgRecords(m))) == Some(m)
  {
    hide EncodeAll; hide MsgRecords; hide Parse;
    MsgParse(NO_MSG, m, []);
    assert EncodeAll(MsgRecords(m)) + [] == EncodeAll(MsgRecords(m));
    if m.obj.Some? { ConsensusRoundTrip(m.obj.value); }
    NothingMore(TakeMsg, m);
  }

  /** Parsing two encodings one after the other is merging the two messages. */
  lemma CommandConcatenation(a: Command, b: Command)
    requires ValidCommand(a) && ValidCommand(b)
    ensures Parse(TakeCommand, NO_COMMAND, EncodeAll(CommandRecords(a)) + EncodeAll(CommandRecords(b))) ==
      Some(Command(if b.cliId != 0 then b.cliId else a.cliId, if b.cliSeq != 0 then b.cliSeq else a.cliSeq,
                   if b.svrSeq != 0 then b.svrSeq else a.svrSeq, a.commands + b.commands))
  {
    hide Parse; hide EncodeAll; hide CommandRecords;
    CommandParse(NO_COMMAND, a, EncodeAll(CommandRecords(b)));
    assert MergeCommand(NO_COMMAND, a) == a;
    CommandParse(a, b, []);
    assert EncodeAll(CommandRecords(b)) + [] == EncodeAll(CommandRecords(b));
    NothingMore(TakeCommand, MergeCommand(a, b));
  }

  lemma ConsensusConcatenation(a: Consensus, b: Consensus)
    requires ValidConsensus(a) && ValidConsensus(b)
    ensures Parse(TakeConsensus, NO_CONSENSUS, EncodeAll(ConsensusRecords(a)) + EncodeAll(ConsensusRecords(b))) ==
      Some(Consensus(if b.proId != 0 then b.proId else a.proId, if b.proSeq != 0 then b.proSeq else a.proSeq,
                     if b.svrSeq != 0 then b.svrSeq else a.svrSeq, a.isNull || b.isNull,
                     a.cliIds + b.cliIds, a.cliSeqs + b.cliSeqs, a.commands + b.commands))
  {
    hide Parse; hide EncodeAll; hide ConsensusRecords;
    ConsensusParse(NO_CONSENSUS, a, EncodeAll(ConsensusRecords(b)));
    assert MergeConsensus(NO_CONSENSUS, a) == a;
    ConsensusParse(a, b, []);
    assert EncodeAll(ConsensusRecords(b)) + [] == EncodeAll(ConsensusRecords(b));
    NothingMore(TakeConsensus, MergeConsensus(a, b));
  }

  lemma MsgConcatenation(a: Msg, b: Msg)
    requires ValidMsg(a) && ValidMsg(b)
    ensures Parse(TakeMsg, NO_MSG, EncodeAll(MsgRecords(a)) + EncodeAll(MsgRecords(b))) ==
      Some(Msg(if b.kind != 0 then b.kind else a.kind, if b.phase != 0 then b.phase else a.phase,
               if b.val != 0 then b.val else a.val,
               if a.obj.None? then b.obj
               else if b.obj.None? then a.obj
               else Parse(TakeConsensus, NO_CONSENSUS,
                          EncodeAll(ConsensusRecords(a.obj.value)) + EncodeAll(ConsensusRecords(b.obj.value)))))
  {
    hide Parse; hide EncodeAll; hide MsgRecords; hide ConsensusRecords; hide ValidConsensus;
    var rest := EncodeAll(MsgRecords(b));
    MsgParse(NO_MSG, a, rest);
    if a.obj.Some? { ConsensusRoundTrip(a.obj.value); }
    assert Parse(TakeMsg, NO_MSG, EncodeAll(MsgRecords(a)) + rest) == Parse(TakeMsg, a, rest + []) by { assert rest + [] == rest; }
    MsgParse(a, b, []);
    if b.obj.Some? {
      ConsensusRoundTrip(b.obj.value);
      if a.obj.Some? { ObjectAfter(a.obj.value, b.obj.value); }
    }
    AnyNothingMore(TakeMsg);
  }

  lemma AnyNothingMore<V(!new)>(take: (V, Record) -> Option<V>)
    ensures forall v :: Parse(take, v, []) == Some(v)
  {}

  /** Parsing the encoding of `b` into `a` is parsing both encodings one after the other. */
  lemma ObjectAfter(a: Consensus, b: Consensus)
    requires ValidConsensus(a) && ValidConsensus(b)
    ensures Parse(TakeConsensus, a, EncodeAll(ConsensusRecords(b)))
      == Parse(TakeConsensus, NO_CONSENSUS, EncodeAll(ConsensusRecords(a)) + EncodeAll(ConsensusRecords(b)))
    ensures Parse(TakeConsensus, a, EncodeAll(ConsensusRecords(b))).Some?
  {
    hide Parse; hide EncodeAll; hide ConsensusRecords; hide ValidConsensus;
    ConsensusParse(NO_CONSENSUS, a, EncodeAll(ConsensusRecords(b)));
    assert [] + a.cliIds == a.cliIds && [] + a.cliSeqs == a.cliSeqs && [] + a.commands == a.commands;
    ConsensusConcatenation(a, b);
  }
}
