/** The extent hook behind the allocator master: a bump pointer over one region,
    set up once and shared by all threads under a lock. */
module ExtentAllocator {
  import opened Collections
  import opened Remainders

  datatype Heap = Heap(start: nat, end: nat, top: nat)

  datatype Extent = Extent(addr: nat, size: nat, alignment: nat)

  datatype Step = Init(mem: nat, memSize: nat) | Alloc(size: nat, alignment: nat)

  const EMPTY: Heap := Heap(0, 0, 0)

  /** The least multiple of the alignment at or above p. */
  function AlignUp(p: nat, alignment: nat): (r: nat)
    requires alignment > 0
  {
    if p % alignment != 0 then p + (alignment - p % alignment) else p
  }

  /** No multiple of d lies strictly between two neighbouring ones. */
  lemma NextMultiple(d: nat, q: nat, e: nat, k: nat)
    requires 0 < e < d && d * q + e <= d * k
    ensures d * q + d <= d * k
  {
    assert d * (k - q - 1) == d * k - d * q - d;
    Scaled(d, k - q - 1);
  }

  lemma AlignUpIsMultiple(p: nat, alignment: nat)
    requires alignment > 0
    ensures p <= AlignUp(p, alignment) && AlignUp(p, alignment) % alignment == 0
  {
    var q, e := p / alignment, p % alignment;
    assert p == alignment * q + e;
    assert alignment * (q + 1) == alignment * q + alignment;
    MultipleOf(alignment, q);
    MultipleOf(alignment, q + 1);
  }

  lemma AlignUpIsLeast(p: nat, alignment: nat, r: nat)
    requires alignment > 0
    ensures p <= AlignUp(p, alignment) && AlignUp(p, alignment) % alignment == 0
    ensures p <= r && r % alignment == 0 ==> AlignUp(p, alignment) <= r
  {
    AlignUpIsMultiple(p, alignment);
    var q, e, k := p / alignment, p % alignment, r / alignment;
    assert p == alignment * q + e;
    if p <= r && r % alignment == 0 && e != 0 {
      assert r == alignment * k;
      NextMultiple(alignment, q, e, k);
    }
  }

  /** `init`: ignored while a region of positive size is managed. */
  function DoInit(h: Heap, mem: nat, memSize: nat): Heap {
    if h.end != h.start then h else Heap(mem, mem + memSize, mem)
  }

  /** `extent_alloc_hook`. */
  function DoAlloc(h: Heap, size: nat, alignment: nat): (r: (Heap, Option<nat>))
    requires alignment > 0
  {
    var ret := AlignUp(h.top, alignment);
    if ret + size >= h.end then (h, None) else (h.(top := ret + size), Some(ret))
  }

  /** A run: the heap it ends with and every extent handed out, oldest first. */
  datatype Run = Run(heap: Heap, extents: seq<Extent>)

  predicate Legal(step: Step) {
    step.Alloc? ==> step.alignment > 0
  }

  function Apply(r: Run, step: Step): Run
    requires Legal(step)
  {
    match step
    case Init(mem, memSize) => r.(heap := DoInit(r.heap, mem, memSize))
    case Alloc(size, alignment) =>
      var (heap, got) := DoAlloc(r.heap, size, alignment);
      Run(heap, r.extents + if got.Some? then [Extent(got.value, size, alignment)] else [])
  }

  function Exec(steps: seq<Step>): Run
    requires forall step <- steps :: Legal(step)
  {
    if steps == [] then Run(EMPTY, []) else Apply(Exec(steps[..|steps| - 1]), steps[|steps| - 1])
  }

  /** Aligned, inside the region, and in order without overlap up to the top. */
  ghost predicate Sound(r: Run) {
    && r.heap.start <= r.heap.top <= r.heap.end
    && (r.extents != [] ==> r.heap.start < r.heap.end)
    && (forall e <- r.extents ::
          && e.alignment > 0 && e.addr % e.alignment == 0
          && r.heap.start <= e.addr && e.addr + e.size <= r.heap.top < r.heap.end)
    && forall i, j :: 0 <= i < j < |r.extents| ==> r.extents[i].addr + r.extents[i].size <= r.extents[j].addr
  }

  lemma StepSound(r: Run, step: Step)
    requires Legal(step) && Sound(r)
    ensures Sound(Apply(r, step))
  {
    if step.Alloc? {
      AlignUpIsLeast(r.heap.top, step.alignment, 0);
    }
  }

  lemma {:induction false} RunSound(steps: seq<Step>)
    requires forall step <- steps :: Legal(step)
    ensures Sound(Exec(steps))
  {
    if steps != [] {
      RunSound(steps[..|steps| - 1]);
      StepSound(Exec(steps[..|steps| - 1]), steps[|steps| - 1]);
    }
  }

  /** In every run all extents are aligned, inside the region, and no byte is in
      two of them. */
  lemma ExtentsDisjoint(steps: seq<Step>, i: nat, j: nat, byte: nat)
    requires forall step <- steps :: Legal(step)
    requires i < |Exec(steps).extents| && j < |Exec(steps).extents|
    ensures var (r, e, f) := (Exec(steps), Exec(steps).extents[i], Exec(steps).extents[j]);
      && e.alignment > 0 && e.addr % e.alignment == 0
      && r.heap.start <= e.addr && e.addr + e.size < r.heap.end
      && (e.addr <= byte < e.addr + e.size && f.addr <= byte < f.addr + f.size ==> i == j)
  {
    RunSound(steps);
    hide Exec;
    assert Exec(steps).extents[i] in Exec(steps).extents;
  }

  /** Once a region is managed nothing but the top changes, and it never falls. */
  lemma TopOnlyGrows(r: Run, step: Step)
    requires Legal(step) && r.heap.start < r.heap.end
    ensures var t := Apply(r, step);
      t.heap.start == r.heap.start && t.heap.end == r.heap.end && r.heap.top <= t.heap.top && r.extents <= t.extents
  {
    if step.Alloc? {
      AlignUpIsLeast(r.heap.top, step.alignment, 0);
    }
  }

  /** A request is refused exactly if no aligned extent of its size above the top
      ends before the region's last byte; a refusal changes nothing, and a grant
      wastes no aligned address. */
  lemma RefusedExactly(h: Heap, size: nat, alignment: nat)
    requires alignment > 0
    ensures var (h', got) := DoAlloc(h, size, alignment);
      && (got.None? <==> forall a: nat :: h.top <= a && a % alignment == 0 ==> h.end <= a + size)
      && (got.None? ==> h' == h)
      && (got.Some? ==> forall a: nat :: h.top <= a && a % alignment == 0 ==> got.value <= a)
  {
    var up := AlignUp(h.top, alignment);
    forall a: nat
      ensures h.top <= a && a % alignment == 0 ==> up <= a
    {
      AlignUpIsLeast(h.top, alignment, a);
    }
    AlignUpIsLeast(h.top, alignment, 0);
    hide AlignUp;
    assert h.top <= up && up % alignment == 0;
  }

  // --------------------------------------------------- no byte more than needed

  /** Where the space for extent i begins: behind the one before it. */
  ghost function Floor(r: Run, i: int): nat
    requires 0 <= i <= |r.extents|
  {
    if i == 0 then r.heap.start else r.extents[i - 1].addr + r.extents[i - 1].size
  }

  ghost predicate Packed(r: Run) {
    && r.heap.top == Floor(r, |r.extents|)
    && (r.extents != [] ==> r.heap.start < r.heap.end)
    && forall i :: 0 <= i < |r.extents| ==>
         r.extents[i].alignment > 0 && r.extents[i].addr == AlignUp(Floor(r, i), r.extents[i].alignment)
  }

  lemma GrantPacked(r: Run, e: Extent)
    requires Packed(r) && e.alignment > 0 && e.addr == AlignUp(r.heap.top, e.alignment) && r.heap.start < r.heap.end
    ensures Packed(Run(r.heap.(top := e.addr + e.size), r.extents + [e]))
  {
    hide AlignUp;
    var t := Run(r.heap.(top := e.addr + e.size), r.extents + [e]);
    forall i | 0 <= i < |t.extents|
      ensures t.extents[i].alignment > 0 && t.extents[i].addr == AlignUp(Floor(t, i), t.extents[i].alignment)
    {
      assert Floor(t, i) == Floor(r, i);
      if i < |r.extents| {
        assert t.extents[i] == r.extents[i];
      }
    }
  }

  lemma InitPacked(r: Run, mem: nat, memSize: nat)
    requires Packed(r)
    ensures Packed(Apply(r, Init(mem, memSize)))
  {
    hide AlignUp;
  }

  lemma StepPacked(r: Run, step: Step)
    requires Legal(step) && Sound(r) && Packed(r)
    ensures Packed(Apply(r, step))
  {
    hide Packed, AlignUp;
    match step
    case Init(mem, memSize) => InitPacked(r, mem, memSize);
    case Alloc(size, alignment) =>
      AlignUpIsLeast(r.heap.top, alignment, 0);
      assert r.extents + [] == r.extents;
      if AlignUp(r.heap.top, alignment) + size < r.heap.end {
        GrantPacked(r, Extent(AlignUp(r.heap.top, alignment), size, alignment));
      }
  }

  lemma {:induction false} RunPacked(steps: seq<Step>)
    requires forall step <- steps :: Legal(step)
    ensures Packed(Exec(steps))
  {
    if steps != [] {
      RunPacked(steps[..|steps| - 1]);
      RunSound(steps[..|steps| - 1]);
      hide Packed, Apply, Sound;
      StepPacked(Exec(steps[..|steps| - 1]), steps[|steps| - 1]);
    }
  }

  /** In every run the extents are packed: each lies at the first aligned address
      behind the one before it, the first one behind the region's start, and the
      top is where the last one ends. */
  lemma ExtentsPacked(steps: seq<Step>, i: nat, a: nat)
    requires (forall step <- steps :: Legal(step)) && i < |Exec(steps).extents|
    ensures var (r, e) := (Exec(steps), Exec(steps).extents[i]);
      && r.heap.top == Floor(r, |r.extents|)
      && e.alignment > 0 && Floor(r, i) <= e.addr && e.addr % e.alignment == 0
      && (Floor(r, i) <= a && a % e.alignment == 0 ==> e.addr <= a)
  {
    RunPacked(steps);
    hide Exec, AlignUp;
    var (r, e) := (Exec(steps), Exec(steps).extents[i]);
    assert e.alignment > 0 && e.addr == AlignUp(Floor(r, i), e.alignment);
    AlignUpIsLeast(Floor(r, i), e.alignment, a);
  }

  /** The first setup of a run with a positive size: its region's start and size. */
  ghost function FirstSetup(steps: seq<Step>): Option<(nat, nat)> {
    if steps == [] then None
    else
      var (before, last) := (FirstSetup(steps[..|steps| - 1]), steps[|steps| - 1]);
      if before.Some? then before
      else if last.Init? && last.memSize > 0 then Some((last.mem, last.memSize))
      else None
  }

  lemma SetupStep(r: Run, step: Step)
    requires Legal(step)
    ensures var t := Apply(r, step);
      && (r.heap.start < r.heap.end ==> t.heap.start == r.heap.start && t.heap.end == r.heap.end)
      && (r.heap.start == r.heap.end && step.Init? ==>
            t.heap.start == step.mem && t.heap.end == step.mem + step.memSize && t.extents == r.extents)
      && (step.Alloc? ==> t.heap.start == r.heap.start && t.heap.end == r.heap.end)
  {
  }

  /** The region of every run is that of its first setup with a positive size, and
      without one nothing was ever granted. */
  lemma {:induction false} RegionExactly(steps: seq<Step>)
    requires forall step <- steps :: Legal(step)
    ensures var (r, setup) := (Exec(steps), FirstSetup(steps));
      && (setup.Some? ==>
            r.heap.start == setup.value.0 && r.heap.end == setup.value.0 + setup.value.1 && setup.value.1 > 0)
      && (setup.None? ==> r.heap.start == r.heap.end && r.extents == [])
  {
    RunSound(steps);
    if steps != [] {
      RegionExactly(steps[..|steps| - 1]);
      SetupStep(Exec(steps[..|steps| - 1]), steps[|steps| - 1]);
      hide Apply;
    }
  }

  class AllocatorMaster {
    var startAddr: nat
    var endAddr: nat
    var heapTop: nat

    ghost function Model(): Heap
      reads this
    {
      Heap(startAddr, endAddr, heapTop)
    }

    constructor ()
      ensures Model() == EMPTY
    {
      startAddr, endAddr, heapTop := 0, 0, 0;
    }

    method Init(mem: nat, memSize: nat)
      modifies this
      ensures Model() == DoInit(old(Model()), mem, memSize)
    {
      if endAddr - startAddr != 0 {
        return;
      }
      startAddr := mem;
      endAddr := startAddr + memSize;
      heapTop := startAddr;
    }

    method ExtentAllocHook(size: nat, alignment: nat) returns (ret: Option<nat>)
      requires alignment > 0
      modifies this
      ensures (Model(), ret) == DoAlloc(old(Model()), size, alignment)
    {
      var p := heapTop;
      if p % alignment != 0 {
        p := p + (alignment - p % alignment);
      }
      if p + size >= endAddr {
        return None;
      }
      heapTop := p + size;
      return Some(p);
    }
  }
}
