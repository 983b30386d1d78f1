/** Concrete keys, numbered as themselves and hashed by `level_hash`, that meet the conditions under which the RDMA
    table goes wrong. */
module IhtInstances {
  import opened Linearizability
  import opened IhtHeap
  import opened IhtUpdates
  import opened IhtCache
  import opened IhtConcurrent
  import opened IhtSequential
  import IhtLostKeys
  import LevelHash

  const Number := (k: Key) => LevelHash.Number(k)

  // ---------- Cache depth 3 ----------

  lemma ClashingBuckets()
    ensures LevelHash.LevelHash(24, 1, 8) == 0 && LevelHash.LevelHash(24, 2, 16) == 8
    ensures LevelHash.LevelHash(30, 1, 8) == 1 && LevelHash.LevelHash(30, 2, 16) == 0
  {}

  lemma ClashingNumbers()
    ensures LevelHash.Number(24) == 24 && LevelHash.Number(30) == 30
  {}

  /** With the sizes of the benchmark the keys 24 and 30 descend to PLists that share a cache slot of the third layer. */
  lemma KeysClash()
    ensures var cfg := SourceConfig(Number);
      && OnPath(cfg, 24, [0, cfg.pSize]) && OnPath(cfg, 30, [1, 0])
  {
    var cfg := SourceConfig(Number);
    ClashingBuckets();
    ClashingNumbers();
    LevelHash.Levels();
    hide LevelHash.LevelHash; hide LevelHash.Word; hide LevelHash.Number;
    assert cfg.Slot(24, 1) == 0 && cfg.Slot(24, 2) == 8;
    assert cfg.Slot(30, 1) == 1 && cfg.Slot(30, 2) == 0;
  }

  /** So with the benchmark's sizes and hash a cached PList is always found under its own path exactly up to cache
      depth 2. */
  lemma SourceCacheSoundIffShallow(cacheDepth: nat)
    requires cacheDepth <= 3
    ensures (forall path, path' :: !Clash(SourceConfig(Number), cacheDepth, path, path')) <==> cacheDepth <= 2
  {
    KeysClash();
    CacheSoundIffShallow(SourceConfig(Number), cacheDepth, 24, 30);
  }

  /** What a clash leads to: a client that has cached the PList of one key gets it when it descends for the other. */
  lemma ClashFetchesWrong(cfg: Config, cl: Client, pos: Pos, pos': Pos, got: seq<Snap>)
    requires cl.cacheDepth == 3 && pos.depth == 3 && pos'.depth == 3 && Calcified(got)
    requires SlotFor(cfg, cl, pos) == SlotFor(cfg, cl, pos') && SlotFor(cfg, cl, pos).value !in cl.cache
    ensures var cl' := cl.(cache := TryCache(cfg, cl, pos, got));
      Fetch(cfg, cl', pos') == Descending(pos', seq(|got|, i requires 0 <= i < |got| => Snap(got[i].bk, 0)))
  {
    var slot := SlotFor(cfg, cl, pos).value;
    var x := TryCache(cfg, cl, pos, got)[slot].buckets;
    assert seq(|x|, i requires 0 <= i < |x| => Snap(x[i], 0)) == seq(|got|, i requires 0 <= i < |got| => Snap(got[i].bk, 0));
  }

  lemma PathOf(cfg: Config, k: Key, i: nat, j: nat)
    requires OnPath(cfg, k, [i, j])
    ensures PathTo(cfg, k, 2) == [i, j]
  {
    assert [i, j][0] == cfg.Slot(k, 1) && [i, j][1] == cfg.Slot(k, 2);
  }

  /** With cache depth 3, a client that has read and cached the PList below the buckets of key 24 takes its
      buckets for those of the PList below the buckets of key 30. */
  lemma DeepCacheMistakes(cl: Client, pos: Pos, pos': Pos, got: seq<Snap>)
    requires cl == Client(cl.pc, 3, map[]) && pos.depth == 3 && pos'.depth == 3 && Calcified(got)
    requires pos.op.key == 24 && pos'.op.key == 30
    ensures var cfg := SourceConfig(Number);
      && PathTo(cfg, 24, 2) != PathTo(cfg, 30, 2)
      && Fetch(cfg, cl.(cache := TryCache(cfg, cl, pos, got)), pos')
         == Descending(pos', seq(|got|, i requires 0 <= i < |got| => Snap(got[i].bk, 0)))
  {
    var cfg := SourceConfig(Number);
    KeysClash();
    hide SourceConfig; hide CacheIndex; hide TryCache; hide Fetch;
    PathOf(cfg, 24, 0, cfg.pSize);
    PathOf(cfg, 30, 1, 0);
    ThirdLayerClashes(cfg, 24, 30);
    assert [0, cfg.pSize][0] != [1, 0][0];
    ClashFetchesWrong(cfg, cl, pos, pos', got);
  }

  // ---------- Two inserters ----------

  lemma SharedBucket()
    ensures SourceConfig(Number).Slot(0, 1) == SourceConfig(Number).Slot(1, 1)
  {
    RootBuckets();
    SmallNumbers();
    LevelHash.Levels();
    hide LevelHash.LevelHash; hide LevelHash.Word; hide LevelHash.Number;
  }

  lemma RootBuckets()
    ensures LevelHash.LevelHash(0, 1, 8) == LevelHash.LevelHash(1, 1, 8) == 0
  {}

  lemma SmallNumbers()
    ensures LevelHash.Number(0) == 0 && LevelHash.Number(1) == 1
  {}

  /** With the benchmark's sizes and hash two clients lose key 0 when they insert it and key 1 at the same time. */
  lemma SourceLosesKey0(c0: nat, c1: nat, v: Value, v': Value) returns (t: seq<State>, acts: seq<Action>)
    requires c0 != c1
    ensures IsRun(SourceConfig(Number), t, acts) && t[0].clients.Keys == {c0, c1}
    ensures IhtLostKeys.NeverRemoved(t[|acts|].history, 0) && !Linearizable(t[|acts|].history)
  {
    SharedBucket();
    SourceConfigValid(Number);
    hide SourceConfig; hide IsRun; hide Linearizable; hide IhtLostKeys.NeverRemoved; hide Config.Slot;
    t, acts := IhtLostKeys.TwoInsertersLoseAKey(SourceConfig(Number), c0, c1, 0, v, 1, v');
  }

  /** And so they do when every list that an insert overwrites is empty. */
  lemma SourceOrphansKey0(c0: nat, c1: nat, v: Value, v': Value) returns (t: seq<State>, acts: seq<Action>)
    requires c0 != c1
    ensures IsRun(SourceConfig(Number), t, acts) && forall i | 0 <= i < |acts| :: IhtLostKeys.Mild(SourceConfig(Number), t[i], acts[i])
    ensures IhtLostKeys.NeverRemoved(t[|acts|].history, 0) && !Linearizable(t[|acts|].history)
  {
    SharedBucket();
    SourceConfigValid(Number);
    hide SourceConfig; hide IsRun; hide Linearizable; hide IhtLostKeys.NeverRemoved; hide IhtLostKeys.Mild; hide Config.Slot;
    t, acts := IhtLostKeys.OrphanLosesAKey(SourceConfig(Number), c0, c1, 0, v, 1, v');
  }

  // ---------- A ninth level ----------

  lemma Buckets29112688()
    ensures LevelHash.LevelHash(29112688, 1, 8) == 0 && LevelHash.LevelHash(29112688, 2, 16) == 13
    ensures LevelHash.LevelHash(29112688, 3, 32) == 5 && LevelHash.LevelHash(29112688, 4, 64) == 4
    ensures LevelHash.LevelHash(29112688, 5, 128) == 74 && LevelHash.LevelHash(29112688, 6, 256) == 114
    ensures LevelHash.LevelHash(29112688, 7, 512) == 295 && LevelHash.LevelHash(29112688, 8, 1024) == 297
  {}

  lemma Buckets73065905()
    ensures LevelHash.LevelHash(73065905, 1, 8) == 0 && LevelHash.LevelHash(73065905, 2, 16) == 13
    ensures LevelHash.LevelHash(73065905, 3, 32) == 5 && LevelHash.LevelHash(73065905, 4, 64) == 4
    ensures LevelHash.LevelHash(73065905, 5, 128) == 74 && LevelHash.LevelHash(73065905, 6, 256) == 114
    ensures LevelHash.LevelHash(73065905, 7, 512) == 295 && LevelHash.LevelHash(73065905, 8, 1024) == 297
  {}

  lemma CrowdingNumbers()
    ensures LevelHash.Number(29112688) == 29112688 && LevelHash.Number(73065905) == 73065905
  {}

  lemma Sizes(cfg: Config)
    requires cfg.pSize == 8
    ensures cfg.Size(1) == 8 && cfg.Size(2) == 16 && cfg.Size(3) == 32 && cfg.Size(4) == 64
    ensures cfg.Size(5) == 128 && cfg.Size(6) == 256 && cfg.Size(7) == 512 && cfg.Size(8) == 1024
  {
    assert cfg.Size(2) == 16;
    assert cfg.Size(4) == 64;
    assert cfg.Size(6) == 256;
  }

  /** With the benchmark's PLIST_SIZE these keys share their first eight buckets. */
  lemma KeysCrowd(eSize: nat)
    ensures SamePath(TableConfig(eSize, 8, Number), 73065905, 29112688, MAX_DEPTH)
  {
    var cfg := TableConfig(eSize, 8, Number);
    Buckets29112688(); Buckets73065905(); CrowdingNumbers(); LevelHash.Levels(); Sizes(cfg);
    hide LevelHash.LevelHash; hide LevelHash.Word; hide LevelHash.Number; hide Config.Size;
    forall i {:trigger cfg.Slot(29112688, i)} | 1 <= i <= MAX_DEPTH ensures cfg.Slot(29112688, i) == cfg.Slot(73065905, i) {
      assert i == 1 || i == 2 || i == 3 || i == 4 || i == 5 || i == 6 || i == 7 || i == 8;
    }
  }

  /** With one pair per EList, inserting both overruns `bucket_path`. */
  method OverrunBucketPath(v: Value, v': Value) returns (overflow: bool)
    ensures overflow
  {
    TableConfigValid(1, 8, Number);
    var table := new RdmaIHT(TableConfig(1, 8, Number), 0);
    var _, first := table.Insert(29112688, v);
    KeysCrowd(1);
    assert !first && 29112688 in Crowd(table.cfg, table.contents, 73065905);
    var _, second := table.Insert(73065905, v');
    return second;
  }
}
