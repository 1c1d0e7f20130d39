/**
 The scatter renderer component: up to 1000 instances of a mesh placed at
 random inside a disc, a lazily built cache holding their positions,
 transforms, indirect arguments and three compute buffers, and the per-frame
 decision of what to cull and how to draw.
 */
module ScatterRender {
  import opened Refs
  import opened Arith
  import opened Device

  /** A mesh asset; only its index count reaches the args record. */
  datatype Mesh = Mesh(indexCount: nat)

  /** The component's references and settings (the `origin` setting is
      never read by the component). */
  datatype ScatterRenderer = ScatterRenderer(
    mesh: Ref<Mesh>,
    material: Ref<Material>,
    cullKernel: Ref<Kernel>,
    scatterRange: real,
    instanceCount: int)

  /** Largest instance count the constructor accepts. */
  const MaxInstances: nat := 1000

  /** Threads per group the cull dispatch assumes. */
  const CullThreadsPerGroup: nat := 128

  datatype Point = Point(x: real, y: real, z: real)

  /** A translation-only transform matrix. */
  datatype Transform = Translate(offset: Point)

  /** The i-th draw of the engine's `Random.insideUnitCircle`; the model takes
      the random source as a parameter. */
  type Sampler = nat -> (real, real)

  datatype ScatterCache =
    | Invalid
    | Valid(
        positions: seq<Point>,
        transforms: seq<Transform>,
        argsValues: seq<nat>,
        deviceArgs: seq<nat>)

  /** The buffer fields released by `ClearCache`, in the order it releases them. */
  function Buffers(c: ScatterCache): seq<Ref<Buffer>>
  {
    if c.Invalid? then [Null, Null, Null] else [Ref(Points), Ref(Visible), Ref(Args)]
  }

  /** What every cache keeps: at most `MaxInstances` instances, transforms
      matching positions one for one, and a
      five-word args buffer on the device agrees with the CPU record except
      for the instance count, which the cull pass overwrites. */
  ghost predicate Wf(c: ScatterCache)
  {
    c.Valid? ==>
      && |c.positions| <= MaxInstances
      && |c.transforms| == |c.positions|
      && |c.argsValues| == ArgsWords
      && c.argsValues[InstanceCountWord] == |c.positions|
      && (forall k :: InstanceCountWord < k < ArgsWords ==> c.argsValues[k] == 0)
      && |c.deviceArgs| == ArgsWords
      && forall k :: 0 <= k < ArgsWords && k != InstanceCountWord ==> c.deviceArgs[k] == c.argsValues[k]
  }

  /** The scatter offset of one instance: a unit-disc sample scaled by the
      range, laid on the XZ plane around the (never moved) start position. */
  function ScatterPosition(s: (real, real), range: real): (p: Point)
    // on the ground plane, at `range` times the sample's distance from the centre
    ensures p.y == 0.0
    ensures p.x * p.x + p.z * p.z == (range * range) * (s.0 * s.0 + s.1 * s.1)
  {
    Point(s.0 * range, 0.0, s.1 * range)
  }

  /** The settings the constructor accepts. */
  predicate Acceptable(r: ScatterRenderer)
  {
    0 < r.instanceCount <= MaxInstances && r.mesh.Ref?
  }

  /** The cache constructor. */
  function Build(r: ScatterRenderer, sample: Sampler): (c: ScatterCache)
    ensures Wf(c)
    ensures c.Valid? <==> Acceptable(r)
    ensures c.Valid? ==>
      && |c.positions| == |c.transforms| == r.instanceCount
      && (forall i :: 0 <= i < |c.transforms| ==> c.transforms[i] == Translate(c.positions[i]))
      && c.argsValues == ArgsRecord(r.mesh.value.indexCount, r.instanceCount)
      && c.deviceArgs == c.argsValues
  {
    if r.instanceCount <= 0 || r.instanceCount > MaxInstances || r.mesh.Null? then Invalid
    else
      var n := r.instanceCount;
      var positions := seq(n, i requires 0 <= i < n => ScatterPosition(sample(i), r.scatterRange));
      var transforms := seq(n, i requires 0 <= i < n => Translate(positions[i]));
      var args := ArgsRecord(r.mesh.value.indexCount, n);
      Valid(positions, transforms, args, args)
  }

  /** Every instance lies within `scatterRange` of the start position when
      the random source keeps its promise of samples inside the unit disc. */
  lemma PositionsWithinRange(r: ScatterRenderer, sample: Sampler)
    requires forall i :: sample(i).0 * sample(i).0 + sample(i).1 * sample(i).1 <= 1.0
    ensures var c := Build(r, sample);
      c.Valid? ==> forall i :: 0 <= i < |c.positions| ==>
        c.positions[i].y == 0.0
        && c.positions[i].x * c.positions[i].x + c.positions[i].z * c.positions[i].z
           <= r.scatterRange * r.scatterRange
  {
    var c := Build(r, sample);
    if c.Valid? {
      forall i | 0 <= i < |c.positions|
        ensures c.positions[i].y == 0.0
        ensures c.positions[i].x * c.positions[i].x + c.positions[i].z * c.positions[i].z
                <= r.scatterRange * r.scatterRange
      {
        var a, b, s := sample(i).0, sample(i).1, r.scatterRange;
        assert c.positions[i] == Point(a * s, 0.0, b * s);
        assert (a * s) * (a * s) + (b * s) * (b * s) == (s * s) * (a * a + b * b);
        NonnegProduct(s * s, 1.0 - (a * a + b * b));
      }
    }
  }

  lemma NonnegProduct(u: real, v: real)
    requires u >= 0.0 && v >= 0.0
    ensures u * v >= 0.0
  {
  }

  /** The `cache` getter: an empty reference is filled by constructing a
      cache from the current settings; a built cache is returned as it is. */
  function GetCache(r: ScatterRenderer, sample: Sampler, cache: Ref<ScatterCache>): (c: Ref<ScatterCache>)
    ensures c.Ref?
    ensures cache.Ref? ==> c == cache
    ensures cache.Null? ==> c.value == Build(r, sample)
  {
    if cache.Null? then Ref(Build(r, sample)) else cache
  }

  /** `ClearCache`: release the non-null buffers, then forget the cache. */
  function ClearCache(cache: Ref<ScatterCache>): (f: Frame<ScatterCache>)
    ensures f.cache.Null?
    ensures cache.Null? || cache.value.Invalid? ==> f.events == []
    ensures cache.Ref? && cache.value.Valid? ==>
              f.events == [Release(Points), Release(Visible), Release(Args)]
  {
    if cache.Null? then Frame(Null, [])
    else
      var handles := Buffers(cache.value);
      if cache.value.Invalid? then
        ReleaseLiveAllNull(handles);
        Frame(Null, ReleaseLive(handles))
      else
        ReleaseLiveAllLive(handles);
        var es := ReleaseLive(handles);
        assert es[0] == Release(Points) && es[1] == Release(Visible) && es[2] == Release(Args);
        Frame(Null, es)
  }

  /** A dispatch that covers n instances: one row of groups of 128 threads,
      with at most one partly used group. */
  predicate CoversInstances(e: Event, n: nat)
  {
    e.Dispatch? && e.groupsY == 1 && e.groupsZ == 1
    && e.groupsX * CullThreadsPerGroup >= n && (e.groupsX - 1) * CullThreadsPerGroup < n
  }

  /** The part of `Update` after the cache was found valid. `visibleCount` is
      the value the GPU's append counter holds after the cull dispatch; the
      model does not compute it. */
  function Render(r: ScatterRenderer, c: ScatterCache, visibleCount: nat): (f: Frame<ScatterCache>)
    requires c.Valid? && Wf(c)
    ensures f.cache.Ref? && Wf(f.cache.value)
    ensures f.cache.value.Valid? && f.cache.value.(deviceArgs := c.deviceArgs) == c
    // the plain draw over every instance always closes the frame, kernel or not
    ensures DrawsOnceLast(f.events) && f.events[|f.events| - 1] == DrawInstanced(|c.transforms|)
    // the instance cap keeps that draw within the engine's limit
    ensures EngineAccepts(f.events[|f.events| - 1])
    // culling runs whenever a kernel exists, though the draw ignores its result
    ensures Dispatches(f.events) <==> r.cullKernel.Ref?
    ensures forall i :: 0 <= i < |f.events| && f.events[i].Dispatch? ==>
              CoversInstances(f.events[i], |c.transforms|)
    // after the cull pass the device args carry the visible count in word 1
    ensures r.cullKernel.Ref? ==>
              CullOrdered(f.events)
              && f.cache.value.deviceArgs == ArgsRecord(c.argsValues[IndexCountWord], visibleCount)
    ensures r.cullKernel.Null? ==> f.cache.value == c
  {
    var n := |c.transforms|;
    var draw := DrawInstanced(n);
    if r.cullKernel.Null? then
      Frame(Ref(c), [draw])
    else
      var cull := [ BindCullInputs(n),
                    ResetVisibleCounter,
                    Dispatch(CeilDiv(n, CullThreadsPerGroup), 1, 1),
                    CopyVisibleCount(SizeOfUint),
                    BindVisibleToMaterial ];
      var es := cull + [draw];
      assert es[..|es| - 1] == cull;
      assert NoDraw(cull);
      assert es[1] == ResetVisibleCounter && es[2].Dispatch? && es[3].CopyVisibleCount? && IsDraw(es[5]);
      var c' := c.(deviceArgs := CopyCount(c.deviceArgs, SizeOfUint, visibleCount));
      assert c'.deviceArgs == ArgsRecord(c.argsValues[IndexCountWord], visibleCount);
      Frame(Ref(c'), es)
  }

  /** One `Update`: do nothing without a material; otherwise read the cache
      (building it if empty), clear it if invalid, render if valid. */
  function Update(r: ScatterRenderer, sample: Sampler, cache: Ref<ScatterCache>, visibleCount: nat): (f: Frame<ScatterCache>)
    requires cache.Ref? ==> Wf(cache.value)
    ensures f.cache.Ref? ==> Wf(f.cache.value)
    // missing material: nothing happens, the cache is not even read
    ensures r.material.Null? ==> f == Frame(cache, [])
    // an invalid cache is cleared: no cull, no draw, and no buffer to release
    ensures r.material.Ref? && GetCache(r, sample, cache).value.Invalid? ==> f == Frame(Null, [])
    // a valid cache, found or freshly built, is rendered
    ensures r.material.Ref? && GetCache(r, sample, cache).value.Valid? ==>
              f == Render(r, GetCache(r, sample, cache).value, visibleCount)
  {
    if r.material.Null? then Frame(cache, [])
    else
      var c := GetCache(r, sample, cache).value;
      if c.Invalid? then ClearCache(Ref(c))
      else Render(r, c, visibleCount)
  }

  /** `OnDisable`: the component being disabled clears the cache. */
  function OnDisable(cache: Ref<ScatterCache>): (f: Frame<ScatterCache>)
    ensures f.cache.Null?
    ensures cache.Ref? ==> f == ClearCache(cache)
  {
    ClearCache(cache)
  }

  /** Clearing is idempotent: an empty cache clears to itself with no
      commands, so a second clear is always a no-op. */
  lemma ClearCacheIdempotent(cache: Ref<ScatterCache>)
    ensures ClearCache(ClearCache(cache).cache) == Frame(Null, [])
    ensures ClearCache(Null).cache == Null
  {
  }

  /** Settings are read only when the cache is constructed: a built cache
      keeps its positions and transforms through any change of instance
      count, mesh or range, and every frame draws the instance count it was
      built with, whatever `instanceCount` now says. */
  lemma BuiltCacheIgnoresSettings(r: ScatterRenderer, sample: Sampler, c: ScatterCache, v: nat)
    requires Wf(c) && c.Valid? && r.material.Ref?
    ensures GetCache(r, sample, Ref(c)) == Ref(c)
    ensures var f := Update(r, sample, Ref(c), v);
      && f.cache.Ref? && f.cache.value.Valid?
      && f.cache.value.positions == c.positions
      && f.cache.value.transforms == c.transforms
      && |f.events| > 0 && f.events[|f.events| - 1] == DrawInstanced(|c.positions|)
  {
  }

  /** Zero instances: the cache is invalid, nothing is allocated, nothing is
      drawn, and the frame ends with no cache, every frame. */
  lemma NoInstancesNoDraw(r: ScatterRenderer, sample: Sampler, v: nat)
    requires r.instanceCount == 0 && r.material.Ref?
    ensures Build(r, sample) == Invalid && Buffers(Build(r, sample)) == [Null, Null, Null]
    ensures Update(r, sample, Null, v) == Frame(Null, [])
  {
  }

  /** With a kernel, the shipped 32 instances need one group of 128 threads
      and the largest accepted count, 1000, needs eight. */
  lemma CullGroupCounts()
    ensures CeilDiv(32, CullThreadsPerGroup) == 1
    ensures CeilDiv(MaxInstances, CullThreadsPerGroup) == 8
  {
    CeilDivUnique(32, CullThreadsPerGroup, 1);
    CeilDivUnique(MaxInstances, CullThreadsPerGroup, 8);
  }
}
