/**
 * The reset sequence of the STM32F103 startup file: Reset_Handler copies the
 * initialised-data image from flash into RAM, zeroes the bss region, and then
 * calls SystemInit, __libc_init_array and main in that order, hanging in a
 * loop if main ever returns.
 *
 * Memory is word-addressed: one array element is one 32-bit word, and the
 * linker symbols _sidata, _sdata, _edata, _sbss, _ebss and _estack are word
 * indices into that array.
 */
module Boot {

  /** One 32-bit memory word (the source's uint32_t). */
  type Word = bv32

  /** The region boundaries the linker script supplies. */
  datatype LinkLayout = LinkLayout(
    sidata: nat,  // start of the initialised-data image in flash
    sdata: nat,   // start of the initialised-data region in RAM
    edata: nat,   // end of the initialised-data region in RAM (exclusive)
    sbss: nat,    // start of the bss region
    ebss: nat,    // end of the bss region (exclusive)
    estack: nat   // top of the stack
  )

  /** Words the data loop copies: the loop guard `data < &_edata` is strict,
      so an inverted region copies nothing. */
  function DataLen(l: LinkLayout): (n: nat)
    ensures n > 0 <==> l.sdata < l.edata
    ensures l.sdata + n == if l.sdata < l.edata then l.edata else l.sdata
  {
    if l.sdata < l.edata then l.edata - l.sdata else 0
  }

  /** Words the bss loop clears, by the same strict guard. */
  function BssLen(l: LinkLayout): (n: nat)
    ensures n > 0 <==> l.sbss < l.ebss
    ensures l.sbss + n == if l.sbss < l.ebss then l.ebss else l.sbss
  {
    if l.sbss < l.ebss then l.ebss - l.sbss else 0
  }

  predicate InData(l: LinkLayout, k: int) { l.sdata <= k < l.edata }
  predicate InBss(l: LinkLayout, k: int) { l.sbss <= k < l.ebss }
  predicate InImage(l: LinkLayout, k: int) { l.sidata <= k < l.sidata + DataLen(l) }

  /** Every word either loop touches lies inside a memory of `size` words. */
  predicate Fits(l: LinkLayout, size: nat)
  {
    && l.sdata + DataLen(l) <= size
    && l.sidata + DataLen(l) <= size
    && l.sbss + BssLen(l) <= size
  }

  /** The forward word-by-word copy never reads a word it has already written:
      either the image starts at or after the destination, or it ends before it. */
  predicate ForwardCopySafe(l: LinkLayout)
  {
    l.sdata <= l.sidata || l.sidata + DataLen(l) <= l.sdata
  }

  /** The three regions are pairwise disjoint, as a linker script that puts the
      image in flash and .data before .bss in RAM lays them out. */
  predicate Disjoint(l: LinkLayout)
  {
    && (l.sidata + DataLen(l) <= l.sdata || l.sdata + DataLen(l) <= l.sidata)
    && (l.sidata + DataLen(l) <= l.sbss || l.sbss + BssLen(l) <= l.sidata)
    && (l.sdata + DataLen(l) <= l.sbss || l.sbss + BssLen(l) <= l.sdata)
  }

  /** Offset into the image of the word the copy loop reads for data offset
      `off`, when the image starts `d` words below the RAM region. Once `off`
      reaches `d` the loop reads back words it has itself written, so the
      region receives the first `d` image words over and over. */
  function Wrap(off: nat, d: nat): (w: nat)
    requires d > 0
    ensures w < d && w <= off
    ensures off < d ==> w == off
  {
    if off < d then off else Wrap(off - d, d)
  }

  /** Offset into the image of the word that ends up at data offset `off`. */
  function Phase(l: LinkLayout, off: nat): (p: nat)
    ensures p <= off
    ensures ForwardCopySafe(l) && off < DataLen(l) ==> p == off
  {
    if l.sidata < l.sdata then Wrap(off, l.sdata - l.sidata) else off
  }

  /** The word the copy loop reads at offset `off` is `_sidata + off`. Either the
      loop has already written that word, at a smaller offset, and then it
      passes on what that offset received; or the word still holds image word
      `off`. */
  lemma {:induction false} CopyReadSource(l: LinkLayout, off: nat)
    ensures l.sdata <= l.sidata + off < l.sdata + off ==>
      Phase(l, off) == Phase(l, l.sidata + off - l.sdata)
    ensures !(l.sdata <= l.sidata + off < l.sdata + off) ==> Phase(l, off) == off
  {
    if l.sidata < l.sdata && l.sdata <= l.sidata + off {
      assert Wrap(off, l.sdata - l.sidata) == Wrap(off - (l.sdata - l.sidata), l.sdata - l.sidata);
    }
  }

  /** Memory after the data loop. In the layout a linker script produces the
      image does not overlap the region from below, and then each word of the
      RAM data region holds the image word at the same offset; in every layout
      nothing outside the region changes. */
  function CopyData(m: seq<Word>, l: LinkLayout): (r: seq<Word>)
    requires Fits(l, |m|)
    ensures |r| == |m|
    ensures ForwardCopySafe(l) ==>
      forall k :: InData(l, k) ==> r[k] == m[l.sidata + (k - l.sdata)]
    ensures forall k {:trigger r[k]} :: 0 <= k < |m| && !InData(l, k) ==> r[k] == m[k]
  {
    seq(|m|, k requires 0 <= k < |m| =>
      if InData(l, k) then m[l.sidata + Phase(l, k - l.sdata)] else m[k])
  }

  /** When the image starts `d` words below the RAM region and overlaps it,
      the forward copy makes the region periodic with period `d`. */
  lemma OverlappingCopyRepeats(m: seq<Word>, l: LinkLayout, k: nat)
    requires Fits(l, |m|) && l.sidata < l.sdata
    requires InData(l, k) && InData(l, k - (l.sdata - l.sidata))
    ensures CopyData(m, l)[k] == CopyData(m, l)[k - (l.sdata - l.sidata)]
  {
  }

  /** Memory after the bss loop: the bss region is zero, nothing else has changed. */
  function ZeroBss(m: seq<Word>, l: LinkLayout): (r: seq<Word>)
    requires Fits(l, |m|)
    ensures |r| == |m|
    ensures forall k :: 0 <= k < |m| && InBss(l, k) ==> r[k] == 0
    ensures forall k {:trigger r[k]} :: 0 <= k < |m| && !InBss(l, k) ==> r[k] == m[k]
  {
    seq(|m|, k requires 0 <= k < |m| => if InBss(l, k) then 0 else m[k])
  }

  /** Memory when SystemInit is called: the data copy followed by the bss fill.
      In every layout the fill comes last, so bss ends up zero even where it
      overlaps the data region, and words outside both regions keep their values. */
  function InitMemory(m: seq<Word>, l: LinkLayout): (r: seq<Word>)
    requires Fits(l, |m|)
    ensures |r| == |m|
    ensures forall k :: InBss(l, k) ==> r[k] == 0
    ensures forall k {:trigger r[k]} :: 0 <= k < |m| && !InData(l, k) && !InBss(l, k) ==> r[k] == m[k]
  {
    ZeroBss(CopyData(m, l), l)
  }

  /** With the regions laid out disjointly, the boot-time memory initialisation
      loads the RAM data region from the image, clears bss, leaves the image
      itself intact, and touches no other word. */
  lemma InitMemoryCorrect(m: seq<Word>, l: LinkLayout)
    requires Fits(l, |m|) && Disjoint(l)
    ensures |InitMemory(m, l)| == |m|
    ensures forall k :: InData(l, k) ==> InitMemory(m, l)[k] == m[l.sidata + (k - l.sdata)]
    ensures forall k :: 0 <= k < |m| && InBss(l, k) ==> InitMemory(m, l)[k] == 0
    ensures forall k {:trigger InitMemory(m, l)[k]} :: InImage(l, k) ==> InitMemory(m, l)[k] == m[k]
    ensures forall k {:trigger InitMemory(m, l)[k]} :: 0 <= k < |m| && !InData(l, k) && !InBss(l, k) ==> InitMemory(m, l)[k] == m[k]
  {
    var c := CopyData(m, l);
    var r := ZeroBss(c, l);
    assert r == InitMemory(m, l);
    forall k | InData(l, k)
      ensures r[k] == m[l.sidata + (k - l.sdata)]
    {
      assert !InBss(l, k);
    }
    forall k | InImage(l, k)
      ensures r[k] == m[k]
    {
      assert !InData(l, k) && !InBss(l, k);
    }
  }

  /** Both loop guards are strict comparisons, so an empty or inverted region
      leaves memory exactly as it was. */
  lemma EmptyRegionsUntouched(m: seq<Word>, l: LinkLayout)
    requires Fits(l, |m|)
    ensures l.edata <= l.sdata ==> CopyData(m, l) == m
    ensures l.ebss <= l.sbss ==> ZeroBss(m, l) == m
  {
    if l.edata <= l.sdata {
      assert CopyData(m, l) == m;
    }
    if l.ebss <= l.sbss {
      assert ZeroBss(m, l) == m;
    }
  }

  /** The observable steps of Reset_Handler. The three calls are external
      routines: only the fact and the order of their invocation is modelled. */
  datatype Step = DataInit | BssInit | SystemInit | LibcInitArray | Main | Hang

  /** The steps Reset_Handler performs exactly once each, in this order. */
  const BootSteps: seq<Step> := [DataInit, BssInit, SystemInit, LibcInitArray, Main]

  /** What one reset produces: the five boot steps, then the trailing
      `while(1);` only if main returns. */
  function BootTrace(mainReturns: bool): (t: seq<Step>)
    ensures |t| == |BootSteps| + (if mainReturns then 1 else 0)
    ensures t[..|BootSteps|] == BootSteps
    ensures Hang in t <==> mainReturns
  {
    BootSteps + (if mainReturns then [Hang] else [])
  }

  /** Number of times `s` occurs in the trace `t`. */
  function Occurrences(t: seq<Step>, s: Step): (n: nat)
    ensures n <= |t|
    ensures n == 0 <==> s !in t
  {
    if t == [] then 0 else (if t[0] == s then 1 else 0) + Occurrences(t[1..], s)
  }

  /** Position of the first occurrence of `s` in `t`. */
  function IndexOf(t: seq<Step>, s: Step): (i: nat)
    requires s in t
    ensures i < |t| && t[i] == s
    ensures forall j :: 0 <= j < i ==> t[j] != s
  {
    if t[0] == s then 0 else 1 + IndexOf(t[1..], s)
  }

  lemma {:induction false} OccurrencesAppend(a: seq<Step>, b: seq<Step>, s: Step)
    ensures Occurrences(a + b, s) == Occurrences(a, s) + Occurrences(b, s)
  {
    if a != [] {
      assert (a + b)[1..] == a[1..] + b;
      OccurrencesAppend(a[1..], b, s);
    } else {
      assert a + b == b;
    }
  }

  /** In a trace whose entries are pairwise distinct, each entry occurs once,
      at its own position. */
  lemma {:induction false} DistinctOccursOnce(t: seq<Step>, i: nat)
    requires i < |t|
    requires forall j, k :: 0 <= j < k < |t| ==> t[j] != t[k]
    ensures Occurrences(t, t[i]) == 1
    ensures IndexOf(t, t[i]) == i
  {
    if i == 0 {
      assert t[0] !in t[1..];
    } else {
      assert t[i] == t[1..][i - 1];
      DistinctOccursOnce(t[1..], i - 1);
    }
  }

  /** No step of a reset appears twice in its trace. */
  lemma BootTraceDistinct(mainReturns: bool)
    ensures forall j, k :: 0 <= j < k < |BootTrace(mainReturns)| ==>
      BootTrace(mainReturns)[j] != BootTrace(mainReturns)[k]
  {
    var t := BootTrace(mainReturns);
    assert t[0] == DataInit && t[1] == BssInit && t[2] == SystemInit;
    assert t[3] == LibcInitArray && t[4] == Main;
    assert mainReturns ==> t[5] == Hang;
  }

  /** The boot order: each of the five steps happens exactly once, each strictly
      after the one before it in BootSteps; the hang happens once, last, and
      only when main returns. */
  lemma {:induction false} BootTraceOrdered(mainReturns: bool)
    ensures forall i :: 0 <= i < |BootSteps| ==> Occurrences(BootTrace(mainReturns), BootSteps[i]) == 1
    ensures forall i, j :: 0 <= i < j < |BootSteps| ==>
      BootSteps[i] in BootTrace(mainReturns) && BootSteps[j] in BootTrace(mainReturns) &&
      IndexOf(BootTrace(mainReturns), BootSteps[i]) < IndexOf(BootTrace(mainReturns), BootSteps[j])
    ensures Occurrences(BootTrace(mainReturns), Hang) == (if mainReturns then 1 else 0)
    ensures mainReturns ==> BootTrace(mainReturns)[|BootTrace(mainReturns)| - 1] == Hang
  {
    var t := BootTrace(mainReturns);
    BootTraceDistinct(mainReturns);
    forall i | 0 <= i < |BootSteps|
      ensures Occurrences(t, BootSteps[i]) == 1 && IndexOf(t, BootSteps[i]) == i
    {
      DistinctOccursOnce(t, i);
    }
    assert Hang !in BootSteps;
    OccurrencesAppend(BootSteps, if mainReturns then [Hang] else [], Hang);
  }

  /** When the copy loop exits, the memory it has built is CopyData's. */
  lemma CopyLoopExit(m: seq<Word>, cur: seq<Word>, l: LinkLayout)
    requires Fits(l, |m|) && |cur| == |m|
    requires forall k :: 0 <= k < |cur| && l.sdata <= k < l.sdata + DataLen(l) ==>
      cur[k] == m[l.sidata + Phase(l, k - l.sdata)]
    requires forall k :: 0 <= k < |cur| && !(l.sdata <= k < l.sdata + DataLen(l)) ==> cur[k] == m[k]
    ensures cur == CopyData(m, l)
  {
    var r := CopyData(m, l);
    forall k | 0 <= k < |cur|
      ensures cur[k] == r[k]
    {
      if InData(l, k) {
        assert l.sdata <= k < l.sdata + DataLen(l);
        assert r[k] == m[l.sidata + Phase(l, k - l.sdata)];
      } else {
        assert !(l.sdata <= k < l.sdata + DataLen(l));
        assert r[k] == m[k];
      }
    }
  }

  /** When the fill loop exits, the memory it has built is ZeroBss's. */
  lemma ZeroLoopExit(m: seq<Word>, cur: seq<Word>, l: LinkLayout)
    requires Fits(l, |m|) && |cur| == |m|
    requires forall k :: 0 <= k < |cur| ==> cur[k] == if l.sbss <= k < l.sbss + BssLen(l) then 0 else m[k]
    ensures cur == ZeroBss(m, l)
  {
    var r := ZeroBss(m, l);
    forall k | 0 <= k < |cur|
      ensures cur[k] == r[k]
    {
      assert InBss(l, k) <==> l.sbss <= k < l.sbss + BssLen(l);
    }
  }

  /** The first loop of Reset_Handler: `dataInit` and `data` move forward
      together, one word per iteration, until `data` reaches `_edata`. */
  method CopyDataLoop(mem: array<Word>, l: LinkLayout) returns (ghost dataEnd: nat, ghost stores: nat)
    requires Fits(l, mem.Length)
    modifies mem
    ensures dataEnd == (if l.sdata < l.edata then l.edata else l.sdata)
    ensures stores == DataLen(l)
    ensures mem[..] == CopyData(old(mem[..]), l)
  {
    var dataInit := l.sidata;
    var data := l.sdata;
    stores := 0;
    while data < l.edata
      invariant l.sdata <= data <= l.sdata + DataLen(l)
      invariant dataInit == l.sidata + (data - l.sdata)
      invariant stores == data - l.sdata
      invariant forall k :: 0 <= k < mem.Length ==>
        mem[k] == if l.sdata <= k < data then old(mem[l.sidata + Phase(l, k - l.sdata)]) else old(mem[k])
      decreases l.edata - data
    {
      CopyReadSource(l, data - l.sdata);
      mem[data] := mem[dataInit];
      data, dataInit := data + 1, dataInit + 1;
      stores := stores + 1;
    }
    dataEnd := data;
    CopyLoopExit(old(mem[..]), mem[..], l);
  }

  /** The second loop of Reset_Handler: `bss` moves forward one word per
      iteration, storing zero, until it reaches `_ebss`. */
  method ZeroBssLoop(mem: array<Word>, l: LinkLayout) returns (ghost bssEnd: nat, ghost clears: nat)
    requires Fits(l, mem.Length)
    modifies mem
    ensures bssEnd == (if l.sbss < l.ebss then l.ebss else l.sbss)
    ensures clears == BssLen(l)
    ensures mem[..] == ZeroBss(old(mem[..]), l)
  {
    var bss := l.sbss;
    clears := 0;
    while bss < l.ebss
      invariant l.sbss <= bss <= l.sbss + BssLen(l)
      invariant clears == bss - l.sbss
      invariant forall k :: 0 <= k < mem.Length ==> mem[k] == if l.sbss <= k < bss then 0 else old(mem[k])
      decreases l.ebss - bss
    {
      mem[bss] := 0;
      bss := bss + 1;
      clears := clears + 1;
    }
    bssEnd := bss;
    ZeroLoopExit(old(mem[..]), mem[..], l);
  }

  /**
   * Reset_Handler: the data copy, the bss fill, then the three external calls
   * and, if main returns, the final hang. Returns the steps in the order they
   * happened; the ghost results record where the two loops' pointers stop, how
   * many words each loop stores, and memory as SystemInit finds it.
   */
  method ResetHandler(mem: array<Word>, l: LinkLayout, mainReturns: bool)
    returns (trace: seq<Step>, ghost dataEnd: nat, ghost stores: nat,
             ghost bssEnd: nat, ghost clears: nat, ghost atSystemInit: seq<Word>)
    requires Fits(l, mem.Length)
    modifies mem
    ensures dataEnd == (if l.sdata < l.edata then l.edata else l.sdata)
    ensures stores == DataLen(l)
    ensures bssEnd == (if l.sbss < l.ebss then l.ebss else l.sbss)
    ensures clears == BssLen(l)
    ensures atSystemInit == InitMemory(old(mem[..]), l)
    ensures mem[..] == atSystemInit
    ensures trace == BootTrace(mainReturns)
  {
    dataEnd, stores := CopyDataLoop(mem, l);
    trace := [DataInit];
    bssEnd, clears := ZeroBssLoop(mem, l);
    trace := trace + [BssInit];

    atSystemInit := mem[..];
    trace := trace + [SystemInit];
    trace := trace + [LibcInitArray];
    trace := trace + [Main];
    if mainReturns {
      trace := trace + [Hang];
    }
  }
}
