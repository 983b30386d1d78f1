/** The message objects: fields assigned by the parse loop, sizes cached by `ByteSizeLong` for the serializer, and
    merging in place. */
module MessageObjects {
  import opened Wire
  import opened Messages
  import opened WireIO

  class CommandObject {
    var cliId: nat
    var cliSeq: nat
    var svrSeq: nat
    var commands: seq<Bytes>
    var cachedSize: nat

    function Value(): Command
      reads this
    {
      Command(cliId, cliSeq, svrSeq, commands)
    }

    constructor ()
      ensures Value() == NO_COMMAND
    {
      cliId, cliSeq, svrSeq, commands, cachedSize := 0, 0, 0, [], 0;
    }

    /** Exactly the length of the serialized form. */
    method ByteSizeLong() returns (total: nat)
      modifies this`cachedSize
      ensures total == cachedSize == |EncodeAll(CommandRecords(Value()))|
    {
      hide EncodeAll; hide Blocks; hide VarintSize;
      CommandParts(Value());
      total := StringsSize(34, commands);
      NumberSize(8, cliId);
      NumberSize(16, cliSeq);
      NumberSize(24, svrSeq);
      if cliId != 0 { total := total + 1 + VarintSize(cliId); }
      if cliSeq != 0 { total := total + 1 + VarintSize(cliSeq); }
      if svrSeq != 0 { total := total + 1 + VarintSize(svrSeq); }
      cachedSize := total;
    }

    /** Appends the encoding at `target`. */
    method Serialize(buf: array<Byte>, target: nat) returns (next: nat)
      requires target + |EncodeAll(CommandRecords(Value()))| <= buf.Length
      modifies buf
      ensures next == target + |EncodeAll(CommandRecords(Value()))|
      ensures buf[..next] == old(buf[..target]) + EncodeAll(CommandRecords(Value()))
    {
      hide EncodeAll; hide Blocks; hide Field; hide CommandRecords;
      CommandParts(Value());
      ghost var before := buf[..target];
      next := PutField(buf, target, 8, cliId);
      next := PutField(buf, next, 16, cliSeq);
      next := PutField(buf, next, 24, svrSeq);
      next := PutBlocks(buf, next, 34, commands);
      Regroup4(before, EncodeAll(Field(8, cliId)), EncodeAll(Field(16, cliSeq)), EncodeAll(Field(24, svrSeq)),
               EncodeAll(Blocks(34, commands)));
    }

    method MergeFrom(from: CommandObject)
      requires from != this
      modifies this`cliId, this`cliSeq, this`svrSeq, this`commands
      ensures cliId == if from.cliId != 0 then from.cliId else old(cliId)
      ensures cliSeq == if from.cliSeq != 0 then from.cliSeq else old(cliSeq)
      ensures svrSeq == if from.svrSeq != 0 then from.svrSeq else old(svrSeq)
      ensures commands == old(commands) + from.commands
    {
      commands := commands + from.commands;
      if from.cliId != 0 { cliId := from.cliId; }
      if from.cliSeq != 0 { cliSeq := from.cliSeq; }
      if from.svrSeq != 0 { svrSeq := from.svrSeq; }
    }

    /** The parse loop: each record is taken into the object, and consecutive commands without going back to the switch. */
    method ParseFrom(b: Bytes) returns (ok: bool)
      modifies this`cliId, this`cliSeq, this`svrSeq, this`commands
      ensures Parse(TakeCommand, old(Value()), b) == if ok then Some(Value()) else None
    {
      hide ReadRecord;
      var ptr := 0;
      assert b[0..] == b;
      while ptr < |b|
        invariant 0 <= ptr <= |b|
        invariant Parse(TakeCommand, old(Value()), b) == Parse(TakeCommand, Value(), b[ptr..])
        decreases |b| - ptr
      {
        var r := GetRecord(b, ptr);
        if r.None? { return false; }
        ptr := r.value.1;
        match r.value.0 {
          case Number(tag, n) =>
            if tag == 8 { cliId := n % UINT32; }
            else if tag == 16 { cliSeq := n % UINT32; }
            else if tag == 24 { svrSeq := n % UINT32; }
            else { return false; }
          case Block(tag, s) =>
            if tag != 34 { return false; }
            commands := commands + [s];
            while ptr < |b| && b[ptr] == 34
              invariant 0 <= ptr <= |b|
              invariant Parse(TakeCommand, old(Value()), b) == Parse(TakeCommand, Value(), b[ptr..])
              decreases |b| - ptr
            {
              var again := GetRecord(b, ptr);
              if again.None? { return false; }
              TagByte(b[ptr..], 34);
              commands := commands + [again.value.0.payload];
              ptr := again.value.1;
            }
        }
      }
      return true;
    }
  }

  lemma CommandParts(m: Command)
    ensures EncodeAll(CommandRecords(m)) == EncodeAll(Field(8, m.cliId)) + EncodeAll(Field(16, m.cliSeq))
      + EncodeAll(Field(24, m.svrSeq)) + EncodeAll(Blocks(34, m.commands))
  {
    hide EncodeAll; hide Field; hide Blocks;
    var a, b, c, d := Field(8, m.cliId), Field(16, m.cliSeq), Field(24, m.svrSeq), Blocks(34, m.commands);
    EncodeConcat(a, b);
    EncodeConcat(a + b, c);
    EncodeConcat(a + b + c, d);
  }

  lemma Regroup4(p: Bytes, a: Bytes, b: Bytes, c: Bytes, d: Bytes)
    ensures p + a + b + c + d == p + (a + b + c + d)
  {}

  /** A record whose first byte is a length-delimited tag below 128 is a block with that tag. */
  lemma TagByte(b: Bytes, tag: nat)
    requires b != [] && b[0] == tag && tag < 128 && tag % 8 == 2 && ReadRecord(b).Some?
    ensures ReadRecord(b).value.0.Block? && ReadRecord(b).value.0.tag == tag
  {}

  /** Of each number the later one counts unless it is zero; repeated fields are appended. */
  ghost predicate ConsensusMerged(was: Consensus, from: Consensus, now: Consensus) {
    && now.proId == (if from.proId != 0 then from.proId else was.proId)
    && now.proSeq == (if from.proSeq != 0 then from.proSeq else was.proSeq)
    && now.svrSeq == (if from.svrSeq != 0 then from.svrSeq else was.svrSeq)
    && now.isNull == (was.isNull || from.isNull)
    && now.cliIds == was.cliIds + from.cliIds && now.cliSeqs == was.cliSeqs + from.cliSeqs
    && now.commands == was.commands + from.commands
  }

  class ConsensusObject {
    var proId: nat
    var proSeq: nat
    var svrSeq: nat
    var isNull: bool
    var cliIds: seq<nat>
    var cliSeqs: seq<nat>
    var commands: seq<Bytes>
    var cachedSize: nat
    var cliIdsSize: nat
    var cliSeqsSize: nat

    function Value(): Consensus
      reads this
    {
      Consensus(proId, proSeq, svrSeq, isNull, cliIds, cliSeqs, commands)
    }

    /** The cached sizes are those of the present fields. */
    ghost predicate Sized()
      reads this
    {
      cliIdsSize == PackSize(cliIds) && cliSeqsSize == PackSize(cliSeqs) && cachedSize == |EncodeAll(ConsensusRecords(Value()))|
    }

    constructor ()
      ensures Value() == NO_CONSENSUS
    {
      proId, proSeq, svrSeq, isNull, cliIds, cliSeqs, commands := 0, 0, 0, false, [], [], [];
      cachedSize, cliIdsSize, cliSeqsSize := 0, 0, 0;
    }

    /** The size of a packed field, whose payload size the serializer will need. */
    static method PackedFieldSize(tag: nat, xs: seq<nat>) returns (total: nat, dataSize: nat)
      requires tag < 128
      ensures total == |EncodeAll(Packed(tag, xs))| && dataSize == PackSize(xs)
    {
      dataSize, total := 0, 0;
      var i := 0;
      assert xs[..0] == [];
      while i < |xs|
        invariant 0 <= i <= |xs| && dataSize == PackSize(xs[..i])
      {
        assert xs[..i + 1][..i] == xs[..i];
        dataSize := dataSize + VarintSize(xs[i]);
        i := i + 1;
      }
      assert xs[..i] == xs;
      PackedSize(tag, xs);
      PackSizeIsLength(xs);
      if dataSize > 0 { total := 1 + VarintSize(dataSize); }
      total := total + dataSize;
    }

    /** Exactly the length of the serialized form; caches what the serializer needs. */
    method ByteSizeLong() returns (total: nat)
      modifies this`cachedSize, this`cliIdsSize, this`cliSeqsSize
      ensures Sized() && total == cachedSize == |EncodeAll(ConsensusRecords(Value()))|
    {
      hide EncodeAll; hide Blocks; hide VarintSize; hide Packed; hide PackSize;
      ConsensusParts(Value());
      var idsTotal, ids := PackedFieldSize(42, cliIds);
      cliIdsSize := ids;
      var seqsTotal, seqs := PackedFieldSize(50, cliSeqs);
      cliSeqsSize := seqs;
      var strings := StringsSize(58, commands);
      total := idsTotal + seqsTotal + strings;
      NumberSize(8, proId);
      NumberSize(16, proSeq);
      NumberSize(24, svrSeq);
      NumberSize(32, if isNull then 1 else 0);
      OneByteTag(1);
      if proId != 0 { total := total + 1 + VarintSize(proId); }
      if proSeq != 0 { total := total + 1 + VarintSize(proSeq); }
      if svrSeq != 0 { total := total + 1 + VarintSize(svrSeq); }
      if isNull { total := total + 1 + 1; }
      cachedSize := total;
    }

    /** Appends the encoding at `target`, with the payload sizes that `ByteSizeLong` cached. */
    method Serialize(buf: array<Byte>, target: nat) returns (next: nat)
      requires Sized() && target + |EncodeAll(ConsensusRecords(Value()))| <= buf.Length
      modifies buf
      ensures next == target + |EncodeAll(ConsensusRecords(Value()))|
      ensures buf[..next] == old(buf[..target]) + EncodeAll(ConsensusRecords(Value()))
    {
      hide EncodeAll; hide Blocks; hide Field; hide ConsensusRecords; hide Packed; hide PackSize;
      ConsensusParts(Value());
      ghost var before := buf[..target];
      var flag := if isNull then 1 else 0;
      next := PutField(buf, target, 8, proId);
      next := PutField(buf, next, 16, proSeq);
      next := PutField(buf, next, 24, svrSeq);
      next := PutField(buf, next, 32, flag);
      next := PutPacked(buf, next, 42, cliIds, cliIdsSize);
      next := PutPacked(buf, next, 50, cliSeqs, cliSeqsSize);
      next := PutBlocks(buf, next, 58, commands);
      Regroup7(before, EncodeAll(Field(8, proId)), EncodeAll(Field(16, proSeq)), EncodeAll(Field(24, svrSeq)),
               EncodeAll(Field(32, flag)), EncodeAll(Packed(42, cliIds)), EncodeAll(Packed(50, cliSeqs)),
               EncodeAll(Blocks(58, commands)));
    }

    method MergeFrom(from: ConsensusObject)
      requires from != this
      modifies this`proId, this`proSeq, this`svrSeq, this`isNull, this`cliIds, this`cliSeqs, this`commands
      ensures ConsensusMerged(old(Value()), from.Value(), Value())
    {
      cliIds := cliIds + from.cliIds;
      cliSeqs := cliSeqs + from.cliSeqs;
      commands := commands + from.commands;
      if from.proId != 0 { proId := from.proId; }
      if from.proSeq != 0 { proSeq := from.proSeq; }
      if from.svrSeq != 0 { svrSeq := from.svrSeq; }
      if from.isNull { isNull := from.isNull; }
    }

    /** One turn of the switch for a number. */
    method TakeNumber(tag: nat, n: nat) returns (ok: bool)
      modifies this`proId, this`proSeq, this`svrSeq, this`isNull, this`cliIds, this`cliSeqs
      ensures TakeConsensus(old(Value()), Number(tag, n)) == if ok then Some(Value()) else None
    {
      ok := true;
      if tag == 8 { proId := n % UINT32; }
      else if tag == 16 { proSeq := n % UINT32; }
      else if tag == 24 { svrSeq := n % UINT32; }
      else if tag == 32 { isNull := n != 0; }
      else if tag == 40 { cliIds := cliIds + [n % UINT32]; }
      else if tag == 48 { cliSeqs := cliSeqs + [n % UINT32]; }
      else { ok := false; }
    }

    /** One turn of the switch for a block. */
    method TakeBlock(tag: nat, s: Bytes) returns (ok: bool)
      modifies this`cliIds, this`cliSeqs, this`commands
      ensures TakeConsensus(old(Value()), Block(tag, s)) == if ok then Some(Value()) else None
    {
      if tag == 42 {
        var xs := GetPacked(s);
        if xs.None? { return false; }
        cliIds := cliIds + xs.value;
      } else if tag == 50 {
        var xs := GetPacked(s);
        if xs.None? { return false; }
        cliSeqs := cliSeqs + xs.value;
      } else if tag == 58 {
        commands := commands + [s];
      } else {
        return false;
      }
      return true;
    }

    /** The parse loop. */
    method ParseFrom(b: Bytes) returns (ok: bool)
      modifies this`proId, this`proSeq, this`svrSeq, this`isNull, this`cliIds, this`cliSeqs, this`commands
      ensures Parse(TakeConsensus, old(Value()), b) == if ok then Some(Value()) else None
    {
      hide ReadRecord; hide TakeConsensus;
      var ptr := 0;
      assert b[0..] == b;
      while ptr < |b|
        invariant 0 <= ptr <= |b|
        invariant Parse(TakeConsensus, old(Value()), b) == Parse(TakeConsensus, Value(), b[ptr..])
        decreases |b| - ptr
      {
        var r := GetRecord(b, ptr);
        if r.None? { return false; }
        ptr := r.value.1;
        match r.value.0 {
          case Number(tag, n) => ok := TakeNumber(tag, n);
          case Block(tag, s) => ok := TakeBlock(tag, s);
        }
        if !ok { return false; }
        while ptr < |b| && r.value.0.tag == 58 && b[ptr] == 58
          invariant 0 <= ptr <= |b|
          invariant Parse(TakeConsensus, old(Value()), b) == Parse(TakeConsensus, Value(), b[ptr..])
          decreases |b| - ptr
        {
          var again := GetRecord(b, ptr);
          if again.None? { return false; }
          TagByte(b[ptr..], 58);
          ok := TakeBlock(58, again.value.0.payload);
          if !ok { return false; }
          ptr := again.value.1;
        }
      }
      return true;
    }
  }

  lemma ConsensusParts(m: Consensus)
    ensures EncodeAll(ConsensusRecords(m)) == EncodeAll(Field(8, m.proId)) + EncodeAll(Field(16, m.proSeq))
      + EncodeAll(Field(24, m.svrSeq)) + EncodeAll(Field(32, if m.isNull then 1 else 0))
      + EncodeAll(Packed(42, m.cliIds)) + EncodeAll(Packed(50, m.cliSeqs)) + EncodeAll(Blocks(58, m.commands))
  {
    hide EncodeAll; hide Field; hide Blocks; hide Packed;
    var a, b, c := Field(8, m.proId), Field(16, m.proSeq), Field(24, m.svrSeq);
    var d, e, f := Field(32, if m.isNull then 1 else 0), Packed(42, m.cliIds), Packed(50, m.cliSeqs);
    var g := Blocks(58, m.commands);
    EncodeConcat(a, b);
    EncodeConcat(a + b, c);
    EncodeConcat(a + b + c, d);
    EncodeConcat(a + b + c + d, e);
    EncodeConcat(a + b + c + d + e, f);
    EncodeConcat(a + b + c + d + e + f, g);
  }

  lemma Regroup7(p: Bytes, a: Bytes, b: Bytes, c: Bytes, d: Bytes, e: Bytes, f: Bytes, g: Bytes)
    ensures p + a + b + c + d + e + f + g == p + (a + b + c + d + e + f + g)
  {
    Regroup4(p, a, b, c, d);
    var x := a + b + c + d;
    assert p + x + e + f + g == p + (x + e + f + g) by { Regroup3(p + x, e, f, g); Regroup3(x, e, f, g); Regroup2(p, x, e + f + g); }
  }

  class MsgObject {
    var kind: int
    var phase: nat
    var val: nat
    var obj: ConsensusObject?
    var cachedSize: nat

    function Value(): Msg
      reads this, obj
    {
      Msg(kind, phase, val, if obj == null then None else Some(obj.Value()))
    }

    /** The enumeration is a 32-bit integer. */
    predicate KindOK()
      reads this
    {
      -0x8000_0000 <= kind < 0x8000_0000
    }

    constructor ()
      ensures Value() == NO_MSG && obj == null
    {
      kind, phase, val, obj, cachedSize := 0, 0, 0, null, 0;
    }

    /** Exactly the length of the serialized form; the embedded message caches its own. */
    method ByteSizeLong() returns (total: nat)
      requires KindOK()
      modifies this`cachedSize
      modifies if obj == null then {} else {obj}
      ensures KindOK() && Value() == old(Value()) && obj == old(obj)
      ensures total == cachedSize == |EncodeAll(MsgRecords(Value()))| && (obj != null ==> obj.Sized())
    {
      hide EncodeAll; hide VarintSize; hide ConsensusRecords; hide MsgRecords; hide Field;
      MsgParts(Value());
      total := 0;
      if obj != null {
        var size := obj.ByteSizeLong();
        total := total + 1 + VarintSize(size) + size;
        BlockSize(34, EncodeAll(ConsensusRecords(obj.Value())));
      }
      FieldTotals(Extended(kind), phase, val);
      if kind != 0 { total := total + 1 + VarintSize(Extended(kind)); }
      if phase != 0 { total := total + 1 + VarintSize(phase); }
      if val != 0 { total := total + 1 + VarintSize(val); }
      cachedSize := total;
    }

    /** Appends the encoding at `target`; the embedded message follows its cached size. */
    method Serialize(buf: array<Byte>, target: nat) returns (next: nat)
      requires KindOK() && (obj != null ==> obj.Sized())
      requires target + |EncodeAll(MsgRecords(Value()))| <= buf.Length
      modifies buf
      ensures next == target + |EncodeAll(MsgRecords(Value()))|
      ensures buf[..next] == old(buf[..target]) + EncodeAll(MsgRecords(Value()))
    {
      hide EncodeAll; hide Field; hide MsgRecords; hide ConsensusRecords; hide Varint; hide VarintSize;
      MsgParts(Value());
      ghost var before := buf[..target];
      next := PutField(buf, target, 8, Extended(kind));
      next := PutField(buf, next, 16, phase);
      next := PutField(buf, next, 24, val);
      ghost var a, b, c := EncodeAll(Field(8, Extended(kind))), EncodeAll(Field(16, phase)), EncodeAll(Field(24, val));
      Regroup3(before, a, b, c);
      if obj != null {
        ghost var payload := EncodeAll(ConsensusRecords(obj.Value()));
        BlockSize(34, payload);
        OneByteTag(34);
        next := PutVarint(buf, next, 34);
        next := PutVarint(buf, next, obj.cachedSize);
        next := obj.Serialize(buf, next);
        Regroup4(before, a + b + c, [34], Varint(|payload|), payload);
        Regroup3(a + b + c, [34], Varint(|payload|), payload);
      }
    }

    method MergeFrom(from: MsgObject)
      requires from != this && (from.obj != null ==> from.obj != obj)
      modifies this, obj
      ensures kind == if from.kind != 0 then from.kind else old(kind)
      ensures phase == if from.phase != 0 then from.phase else old(phase)
      ensures val == if from.val != 0 then from.val else old(val)
      ensures from.obj == null ==> Value().obj == old(Value()).obj
      ensures from.obj != null && old(obj) == null ==> obj != null && obj.Value() == from.obj.Value()
      ensures from.obj != null && old(obj) != null ==>
        obj == old(obj) && ConsensusMerged(old(obj.Value()), from.obj.Value(), obj.Value())
      ensures fresh(obj) || obj == old(obj)
    {
      if from.obj != null {
        if obj == null { obj := new ConsensusObject(); }
        ghost var was := obj.Value();
        obj.MergeFrom(from.obj);
        if was == NO_CONSENSUS { NothingMerged(from.obj.Value(), obj.Value()); }
        hide ConsensusMerged;
      }
      if from.kind != 0 { kind := from.kind; }
      if from.phase != 0 { phase := from.phase; }
      if from.val != 0 { val := from.val; }
    }

    /** One turn of the switch. */
    method Take(r: Record) returns (ok: bool)
      modifies this, obj
      ensures TakeMsg(old(Value()), r) == if ok then Some(Value()) else None
      ensures fresh(obj) || obj == old(obj)
    {
      hide Parse;
      match r
      case Number(tag, n) =>
        if tag == 8 { kind := Truncated(n); }
        else if tag == 16 { phase := n % UINT32; }
        else if tag == 24 { val := n % UINT32; }
        else { return false; }
        return true;
      case Block(tag, s) =>
        if tag != 34 { return false; }
        if obj == null { obj := new ConsensusObject(); }
        ok := obj.ParseFrom(s);
    }

    /** The parse loop. */
    method ParseFrom(b: Bytes) returns (ok: bool)
      modifies this, obj
      ensures Parse(TakeMsg, old(Value()), b) == if ok then Some(Value()) else None
      ensures fresh(obj) || obj == old(obj)
    {
      hide ReadRecord; hide TakeMsg;
      var ptr := 0;
      assert b[0..] == b;
      while ptr < |b|
        invariant 0 <= ptr <= |b| && (fresh(obj) || obj == old(obj))
        invariant Parse(TakeMsg, old(Value()), b) == Parse(TakeMsg, Value(), b[ptr..])
        decreases |b| - ptr
      {
        var r := GetRecord(b, ptr);
        if r.None? { return false; }
        ptr := r.value.1;
        ok := Take(r.value.0);
        if !ok { return false; }
      }
      return true;
    }
  }

  lemma NothingMerged(from: Consensus, now: Consensus)
    requires ConsensusMerged(NO_CONSENSUS, from, now)
    ensures now == from
  {}

  lemma FieldTotals(kind: nat, phase: nat, val: nat)
    ensures |EncodeAll(Field(8, kind))| == if kind == 0 then 0 else 1 + VarintSize(kind)
    ensures |EncodeAll(Field(16, phase))| == if phase == 0 then 0 else 1 + VarintSize(phase)
    ensures |EncodeAll(Field(24, val))| == if val == 0 then 0 else 1 + VarintSize(val)
  {
    NumberSize(8, kind);
    NumberSize(16, phase);
    NumberSize(24, val);
  }

  lemma MsgParts(m: Msg)
    requires -0x8000_0000 <= m.kind
    ensures EncodeAll(MsgRecords(m)) == EncodeAll(Field(8, Extended(m.kind))) + EncodeAll(Field(16, m.phase))
      + EncodeAll(Field(24, m.val))
      + if m.obj.None? then [] else EncodeAll([Block(34, EncodeAll(ConsensusRecords(m.obj.value)))])
  {
    var a, b, c := Field(8, Extended(m.kind)), Field(16, m.phase), Field(24, m.val);
    var d := if m.obj.None? then [] else [Block(34, EncodeAll(ConsensusRecords(m.obj.value)))];
    assert EncodeAll([]) == [];
    hide EncodeAll; hide Field; hide ConsensusRecords;
    EncodeConcat(a, b);
    EncodeConcat(a + b, c);
    EncodeConcat(a + b + c, d);
  }
}
