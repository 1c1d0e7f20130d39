/**
 The slice of the engine's GPU interface the two renderers touch, reduced to
 abstract events: which buffers a cache owns, the five-word indirect draw
 arguments record, the device-side counter copy into that record, and the
 ordered list of commands one frame submits.
 */
module Device {
  import opened Refs

  /** The compute buffers a render cache can own. */
  datatype Buffer = Points | Visible | Args | PlaneOrigins | PlaneNormals

  /** A compute shader handle; the thread group size is what the shader declares. */
  datatype Kernel = Kernel(threadGroupX: nat, threadGroupY: nat, threadGroupZ: nat)

  /** A material; its `_HeightScale` only inflates the terrain mesh bounds. */
  datatype Material = Material(heightScale: real)

  /** One command a frame submits, in submission order. */
  datatype Event =
    | BindCullInputs(pointCount: nat)     // _Points, _Visible (and planes) bound, _PointCount set
    | UploadCullPlanes                    // the five frustum planes written to their buffers
    | ResetVisibleCounter                 // append counter of the visible buffer set to 0
    | Dispatch(groupsX: nat, groupsY: nat, groupsZ: nat)
    | CopyVisibleCount(byteOffset: nat)   // visible counter copied into the args buffer
    | BindVisibleToMaterial               // material reads _Points from the visible buffer
    | DrawInstanced(instances: nat)       // plain instanced draw over the transform array
    | DrawIndirect                        // instanced draw reading its counts from the args buffer
    | Release(buffer: Buffer)

  /** Per-frame outcome: the component's cache reference and the commands issued. */
  datatype Frame<C> = Frame(cache: Ref<C>, events: seq<Event>)

  const SizeOfUint: nat := 4

  /** Layout of the indirect draw arguments record, one 32-bit word each. */
  const ArgsWords: nat := 5
  const IndexCountWord: nat := 0
  const InstanceCountWord: nat := 1

  /** Initial arguments: index count per instance, instance count, then zero
      start index, base vertex and start instance. */
  function ArgsRecord(indexCount: nat, instanceCount: nat): (r: seq<nat>)
    ensures |r| == ArgsWords
    ensures r[IndexCountWord] == indexCount && r[InstanceCountWord] == instanceCount
    ensures forall k :: InstanceCountWord < k < ArgsWords ==> r[k] == 0
  {
    [indexCount, instanceCount, 0, 0, 0]
  }

  /** Device-side copy of an append counter into a word of another buffer,
      addressed by a byte offset that must be word-aligned. */
  function CopyCount(words: seq<nat>, byteOffset: nat, count: nat): (r: seq<nat>)
    requires byteOffset % SizeOfUint == 0 && byteOffset / SizeOfUint < |words|
    ensures |r| == |words|
    ensures r[byteOffset / SizeOfUint] == count
    ensures forall k :: 0 <= k < |r| && k != byteOffset / SizeOfUint ==> r[k] == words[k]
  {
    words[byteOffset / SizeOfUint := count]
  }

  /** Copying at offset `sizeof(uint)` replaces the instance count and keeps
      the index count and the three zero words. */
  lemma CopyCountSetsInstanceCount(indexCount: nat, instanceCount: nat, visible: nat)
    ensures CopyCount(ArgsRecord(indexCount, instanceCount), SizeOfUint, visible)
            == ArgsRecord(indexCount, visible)
  {
  }

  /** Dispose every non-null buffer reference, in order, skipping nulls. */
  function ReleaseLive(handles: seq<Ref<Buffer>>): (es: seq<Event>)
    ensures forall i :: 0 <= i < |es| ==> es[i].Release?
  {
    if handles == [] then []
    else
      var rest := ReleaseLive(handles[1..]);
      if handles[0].Ref? then [Release(handles[0].value)] + rest else rest
  }

  /** Each buffer is released exactly as often as a live reference to it
      occurs: nothing is released twice unless it is referenced twice, and
      nothing unreferenced is released. */
  lemma {:induction false} ReleaseLiveCounts(handles: seq<Ref<Buffer>>)
    ensures forall b :: multiset(ReleaseLive(handles))[Release(b)] == multiset(handles)[Ref(b)]
  {
    if handles != [] {
      var rest := handles[1..];
      ReleaseLiveCounts(rest);
      assert handles == [handles[0]] + rest;
      if handles[0].Ref? {
        assert ReleaseLive(handles) == [Release(handles[0].value)] + ReleaseLive(rest);
      } else {
        assert ReleaseLive(handles) == ReleaseLive(rest);
      }
    }
  }

  /** Only null references: nothing is released. */
  lemma {:induction false} ReleaseLiveAllNull(handles: seq<Ref<Buffer>>)
    requires forall i :: 0 <= i < |handles| ==> handles[i].Null?
    ensures ReleaseLive(handles) == []
  {
    if handles != [] {
      ReleaseLiveAllNull(handles[1..]);
    }
  }

  /** Only live references: each is released, in field order. */
  lemma {:induction false} ReleaseLiveAllLive(handles: seq<Ref<Buffer>>)
    requires forall i :: 0 <= i < |handles| ==> handles[i].Ref?
    ensures |ReleaseLive(handles)| == |handles|
    ensures forall i :: 0 <= i < |handles| ==> ReleaseLive(handles)[i] == Release(handles[i].value)
  {
    if handles != [] {
      var rest := handles[1..];
      ReleaseLiveAllLive(rest);
      assert ReleaseLive(handles) == [Release(handles[0].value)] + ReleaseLive(rest);
      forall i | 1 <= i < |handles|
        ensures ReleaseLive(handles)[i] == Release(handles[i].value)
      {
        assert handles[i] == rest[i - 1];
      }
    }
  }

  /** Largest instance count the engine's plain instanced draw accepts; a
      larger count makes the draw call throw. */
  const MaxDrawInstances: nat := 1023

  /** A command the engine carries out rather than rejecting. */
  predicate EngineAccepts(e: Event)
  {
    e.DrawInstanced? ==> e.instances <= MaxDrawInstances
  }

  predicate IsDraw(e: Event)
  {
    e.DrawInstanced? || e.DrawIndirect?
  }

  /** No draw command at all. */
  predicate NoDraw(es: seq<Event>)
  {
    forall i :: 0 <= i < |es| ==> !IsDraw(es[i])
  }

  /** Exactly one draw command, and it closes the frame. */
  predicate DrawsOnceLast(es: seq<Event>)
  {
    |es| > 0 && IsDraw(es[|es| - 1]) && NoDraw(es[..|es| - 1])
  }

  predicate Dispatches(es: seq<Event>)
  {
    exists i :: 0 <= i < |es| && es[i].Dispatch?
  }

  /** The visible counter is reset, the kernel dispatched and the count
      copied, in that order. */
  predicate CullSequenced(es: seq<Event>)
  {
    exists i, j, k :: 0 <= i < j < k < |es| && es[i] == ResetVisibleCounter
      && es[j].Dispatch? && es[k].CopyVisibleCount?
  }

  /** The cull pipeline runs in the order the GPU needs: the counter is reset,
      the kernel is dispatched, the count is copied, and only then is the
      frame drawn. */
  predicate CullOrdered(es: seq<Event>)
  {
    exists i, j, k, l :: 0 <= i < j < k < l < |es| && es[i] == ResetVisibleCounter
      && es[j].Dispatch? && es[k].CopyVisibleCount? && IsDraw(es[l])
  }
}
