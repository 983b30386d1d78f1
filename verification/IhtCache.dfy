/** Where a client caches a PList. The bucket path that leads to a PList is folded into one index of the
    array of its layer. */
module IhtCache {
  import opened Linearizability
  import opened IhtHeap

  /** The factor that the fold uses at step `i`. */
  function LayerFactor(pSize: nat, i: nat): nat {
    if i == 0 then 1 else if i == 1 then pSize else 2 * pSize * pSize
  }

  function CacheIndex(pSize: nat, path: seq<nat>): nat {
    if path == [] then 0
    else CacheIndex(pSize, path[..|path| - 1]) * LayerFactor(pSize, |path| - 1) + path[|path| - 1]
  }

  /** The layer and index for the PList at the end of `path`, if that layer is cached at all. */
  function CacheSlot(pSize: nat, cacheDepth: nat, path: seq<nat>): Option<(nat, nat)> {
    if |path| < cacheDepth then Some((|path|, CacheIndex(pSize, path))) else None
  }

  /** The bucket path of some key. */
  ghost predicate Reachable(cfg: Config, path: seq<nat>) {
    exists k :: OnPath(cfg, k, path)
  }

  /** A cached entry could be taken for another PList. */
  ghost predicate Clash(cfg: Config, cacheDepth: nat, path: seq<nat>, path': seq<nat>) {
    && path != path'
    && Reachable(cfg, path) && Reachable(cfg, path')
    && CacheSlot(cfg.pSize, cacheDepth, path).Some?
    && CacheSlot(cfg.pSize, cacheDepth, path) == CacheSlot(cfg.pSize, cacheDepth, path')
  }

  lemma ShallowSlotsInjective(pSize: nat, cacheDepth: nat, path: seq<nat>, path': seq<nat>)
    requires cacheDepth <= 2
    requires CacheSlot(pSize, cacheDepth, path).Some?
    requires CacheSlot(pSize, cacheDepth, path) == CacheSlot(pSize, cacheDepth, path')
    ensures path == path'
  {
    if |path| == 1 {
      assert path[..0] == [] == path'[..0];
      assert path == [path[0]] && path' == [path'[0]];
    }
  }

  lemma SecondStep(pSize: nat, i: nat, j: nat)
    ensures CacheIndex(pSize, [i, j]) == i * pSize + j
  {
    var p, q := [i, j], [i];
    assert p[..1] == q;
    assert q[..0] == [];
    assert CacheIndex(pSize, q) == CacheIndex(pSize, q[..0]) * LayerFactor(pSize, 0) + i;
  }

  /** Two keys whose first buckets are `0, P` and `1, 0` share a slot of the third layer. */
  lemma ThirdLayerClashes(cfg: Config, k: Key, k': Key)
    requires OnPath(cfg, k, [0, cfg.pSize]) && OnPath(cfg, k', [1, 0])
    ensures Clash(cfg, 3, [0, cfg.pSize], [1, 0])
  {
    SecondStep(cfg.pSize, 0, cfg.pSize);
    SecondStep(cfg.pSize, 1, 0);
    assert [0, cfg.pSize][0] != [1, 0][0];
  }

  /** Every cached PList is found again under its own path exactly when at most two layers are cached, for a hash
      that takes two keys to those buckets. */
  lemma CacheSoundIffShallow(cfg: Config, cacheDepth: nat, k: Key, k': Key)
    requires OnPath(cfg, k, [0, cfg.pSize]) && OnPath(cfg, k', [1, 0]) && cacheDepth <= 3
    ensures (forall path, path' :: !Clash(cfg, cacheDepth, path, path')) <==> cacheDepth <= 2
  {
    if cacheDepth <= 2 {
      forall path, path' ensures !Clash(cfg, cacheDepth, path, path') {
        if CacheSlot(cfg.pSize, cacheDepth, path).Some?
           && CacheSlot(cfg.pSize, cacheDepth, path) == CacheSlot(cfg.pSize, cacheDepth, path') {
          ShallowSlotsInjective(cfg.pSize, cacheDepth, path, path');
        }
      }
    } else {
      ThirdLayerClashes(cfg, k, k');
    }
  }
}
