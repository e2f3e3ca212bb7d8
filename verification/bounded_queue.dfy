// The queue used by one thread at a time: the same code as a class over an
// array, on 64-bit words, refining a bounded first-in first-out sequence.
module BoundedQueueClass {
  import opened RingArithmetic
  import opened MpmcQueue
  import opened MpmcTheorems
  import opened MpmcWord

  class BoundedQueue<T(==)> {
    const maxSize: nat
    const mask: nat
    const cells: array<Cell<T>>
    var enqueuePos: nat
    var dequeuePos: nat
    ghost var contents: seq<T>    // the queued values, oldest first
    ghost var exact: Memory<T>    // the same memory before wrapping at 2^64

    ghost function Mem(): Memory<T>
      reads this, cells
    {
      Memory(cells[..], enqueuePos, dequeuePos)
    }

    ghost predicate Valid()
      reads this, cells
    {
      && ValidQueueSize(maxSize) && maxSize < WORD / 2 && cells.Length == maxSize && mask == maxSize - 1
      && |exact.cells| == maxSize && Mem() == WrapMemory(exact) && HoldsQueue(exact, contents)
    }

    constructor (size: nat, blank: T)
      requires ValidQueueSize(size) && size < WORD / 2
      ensures Valid() && fresh(cells) && maxSize == size && contents == []
    {
      maxSize := size;
      mask := size - 1;
      cells := new Cell<T>[size](i => Cell(0, blank));
      enqueuePos, dequeuePos := 0, 0;
      contents := [];
      new;
      var i := 0;
      while i != size
        invariant 0 <= i <= size
        invariant forall j :: 0 <= j < i ==> cells[j].sequence == j
        modifies cells
      {
        cells[i] := cells[i].(sequence := i);
        i := i + 1;
      }
      exact := Mem();
      assert WrapMemory(exact).cells == exact.cells;
    }

    /** The constructor throws for every other size. A ring of 2^63 cells or more
        does not fit into memory. */
    static method Make(size: nat, blank: T) returns (q: BoundedQueue?<T>)
      requires size < WORD / 2
      ensures q == null <==> !ValidQueueSize(size)
      ensures q != null ==> fresh(q) && fresh(q.cells) && q.Valid() && q.maxSize == size && q.contents == []
    {
      if size >= 2 && And(size, size - 1) == 0 {
        q := new BoundedQueue(size, blank);
      } else {
        q := null;
      }
    }

    /** Fails exactly when the queue is full, however often the weak
        compare-and-swap fails without cause, and then changes nothing. */
    method Enqueue(msg: T, spuriousFailures: nat) returns (ok: bool)
      requires Valid()
      modifies this`enqueuePos, this`contents, this`exact, cells
      ensures Valid()
      ensures ok <==> |old(contents)| < maxSize
      ensures contents == if ok then old(contents) + [msg] else old(contents)
    {
      ghost var was := exact;
      EnqueueSees(was, contents);
      hide HoldsQueue, WrapMemory, SignedDiff, And, Slot, ValidQueueSize;
      var pos := enqueuePos;
      var left := spuriousFailures;
      var i := And(pos, mask);
      while true
        invariant pos == enqueuePos == old(enqueuePos) && i == And(pos, mask)
        invariant cells[..] == old(cells[..]) && contents == old(contents) && exact == was
        decreases left
      {
        i := And(pos, mask);
        var dif := SignedDiff(Word, cells[i].sequence, pos);
        if dif == 0 {
          if left == 0 {
            enqueuePos := (pos + 1) % WORD;
            break;
          }
          pos, left := enqueuePos, left - 1;
        } else if dif < 0 {
          assert Mem() == old(Mem());
          return false;
        } else {
          assert false;
        }
      }
      cells[i] := cells[i].(data := msg);
      cells[i] := cells[i].(sequence := (pos + 1) % WORD);
      exact := Appended(was, msg);
      AppendHolds(was, contents, msg, exact);
      AppendedWraps(was, msg);
      contents := contents + [msg];
      return true;
    }

    /** Fails exactly when the queue is empty; otherwise hands out the oldest
        value. The cell keeps an arbitrary moved-from value. */
    method Dequeue(spuriousFailures: nat, residue: T) returns (ok: bool, msg: T)
      requires Valid()
      modifies this`dequeuePos, this`contents, this`exact, cells
      ensures Valid()
      ensures ok <==> old(contents) != []
      ensures ok ==> msg == old(contents)[0] && contents == old(contents)[1..]
      ensures !ok ==> contents == old(contents)
    {
      ghost var was := exact;
      DequeueSees(was, contents);
      hide HoldsQueue, WrapMemory, SignedDiff, And, Slot, ValidQueueSize;
      var pos := dequeuePos;
      var left := spuriousFailures;
      var i := And(pos, mask);
      msg := residue;
      while true
        invariant pos == dequeuePos == old(dequeuePos) && i == And(pos, mask)
        invariant cells[..] == old(cells[..]) && contents == old(contents) && exact == was
        decreases left
      {
        i := And(pos, mask);
        var dif := SignedDiff(Word, cells[i].sequence, (pos + 1) % WORD);
        if dif == 0 {
          if left == 0 {
            dequeuePos := (pos + 1) % WORD;
            break;
          }
          pos, left := dequeuePos, left - 1;
        } else if dif < 0 {
          assert Mem() == old(Mem());
          return false, msg;
        } else {
          assert false;
        }
      }
      msg := cells[i].data;
      cells[i] := cells[i].(data := residue);
      cells[i] := cells[i].(sequence := (pos + mask + 1) % WORD);
      exact := Removed(was, residue);
      TakeHolds(was, contents, residue, exact);
      RemovedWraps(was, residue);
      contents := contents[1..];
      return true, msg;
    }

    /** Exact, unless the enqueue counter has wrapped and the dequeue counter has
        not: then a queue that is not empty seems to be. */
    method ApproxSize() returns (size: nat)
      requires Valid()
      ensures dequeuePos <= enqueuePos ==> size == |contents|
      ensures dequeuePos > enqueuePos ==> size == 0 < |contents|
    {
      WrappedDistance(exact.dequeuePos, exact.enqueuePos);
      var first, last := dequeuePos, enqueuePos;
      if last <= first { return 0; }
      size := last - first;
      size := if size < maxSize then size else maxSize;
    }
  }

  /** The unbounded memory after an append, and after a removal. */
  function Appended<T>(mem: Memory<T>, msg: T): Memory<T>
    requires |mem.cells| > 0
  {
    var e, n := mem.enqueuePos, |mem.cells|;
    Memory(mem.cells[Slot(e, n) := Cell(e + 1, msg)], e + 1, mem.dequeuePos)
  }

  function Removed<T>(mem: Memory<T>, residue: T): Memory<T>
    requires |mem.cells| > 0
  {
    var d, n := mem.dequeuePos, |mem.cells|;
    Memory(mem.cells[Slot(d, n) := Cell(d + n, residue)], mem.enqueuePos, d + 1)
  }

  /** The cell that enqueue finds on words, and what it reads there. */
  lemma EnqueueSees<T>(mem: Memory<T>, contents: seq<T>)
    requires HoldsQueue(mem, contents) && ValidQueueSize(|mem.cells|) && |mem.cells| < WORD / 2
    ensures var n, pos := |mem.cells|, mem.enqueuePos % WORD;
            && |WrapMemory(mem).cells| == n && WrapMemory(mem).enqueuePos == pos && |contents| <= n
            && And(pos, n - 1) == Slot(mem.enqueuePos, n)
            && SignedDiff(Word, WrapMemory(mem).cells[And(pos, n - 1)].sequence, pos)
               == if |contents| < n then 0 else 1 - n
  {
    var n, e := |mem.cells|, mem.enqueuePos;
    MaskSelectsSlot(e % WORD, n);
    SlotIgnoresWrap(e, n);
    FullOrFree(mem, contents);
    SignedDiffOfWrapped(mem.cells[Slot(e, n)].sequence, e);
    hide SignedDiff, And, ValidQueueSize;
  }

  lemma DequeueSees<T>(mem: Memory<T>, contents: seq<T>)
    requires HoldsQueue(mem, contents) && ValidQueueSize(|mem.cells|) && |mem.cells| < WORD / 2
    ensures var n, pos := |mem.cells|, mem.dequeuePos % WORD;
            && |WrapMemory(mem).cells| == n && WrapMemory(mem).dequeuePos == pos
            && And(pos, n - 1) == Slot(mem.dequeuePos, n)
            && SignedDiff(Word, WrapMemory(mem).cells[And(pos, n - 1)].sequence, (pos + 1) % WORD)
               == (if contents != [] then 0 else -1)
            && (contents != [] ==> WrapMemory(mem).cells[And(pos, n - 1)].data == contents[0])
  {
    var n, d := |mem.cells|, mem.dequeuePos;
    MaskSelectsSlot(d % WORD, n);
    SlotIgnoresWrap(d, n);
    assert mem.cells[Slot(d, n)].sequence == if contents != [] then d + 1 else d;
    SignedDiffOfWrapped(mem.cells[Slot(d, n)].sequence, d + 1);
    WrapSuccessor(d, 1);
    hide SignedDiff, And, ValidQueueSize;
  }

  lemma AppendedWraps<T>(mem: Memory<T>, msg: T)
    requires |mem.cells| > 0
    ensures var w, w', n := WrapMemory(mem), WrapMemory(Appended(mem, msg)), |mem.cells|;
            && |w.cells| == n
            && w' == Memory(w.cells[Slot(mem.enqueuePos, n) := Cell((mem.enqueuePos % WORD + 1) % WORD, msg)],
                            (mem.enqueuePos % WORD + 1) % WORD, w.dequeuePos)
  {
    WrapSuccessor(mem.enqueuePos, 1);
    WrapUpdate(mem, Slot(mem.enqueuePos, |mem.cells|), Cell(mem.enqueuePos + 1, msg));
    hide Slot;
  }

  lemma RemovedWraps<T>(mem: Memory<T>, residue: T)
    requires |mem.cells| > 0
    ensures var w, w', n, pos := WrapMemory(mem), WrapMemory(Removed(mem, residue)), |mem.cells|, mem.dequeuePos % WORD;
            && |w.cells| == n
            && w' == Memory(w.cells[Slot(mem.dequeuePos, n) := Cell((pos + n) % WORD, residue)],
                            w.enqueuePos, (pos + 1) % WORD)
  {
    WrapSuccessor(mem.dequeuePos, 1);
    WrapSuccessor(mem.dequeuePos, |mem.cells|);
    WrapUpdate(mem, Slot(mem.dequeuePos, |mem.cells|), Cell(mem.dequeuePos + |mem.cells|, residue));
    hide Slot;
  }

  lemma FullOrFree<T>(mem: Memory<T>, contents: seq<T>)
    requires HoldsQueue(mem, contents)
    ensures var n := |mem.cells|;
            mem.cells[Slot(mem.enqueuePos, n)].sequence ==
              if |contents| < n then mem.enqueuePos else mem.dequeuePos + 1
  {
    var n := |mem.cells|;
    if |contents| == n {
      assert Slot(mem.dequeuePos + n, n) == Slot(mem.dequeuePos, n);
      assert mem.cells[Slot(mem.dequeuePos, n)] == Cell(mem.dequeuePos + 1, contents[0]);
    }
  }

  lemma AppendHolds<T>(mem: Memory<T>, contents: seq<T>, msg: T, mem': Memory<T>)
    requires HoldsQueue(mem, contents) && |contents| < |mem.cells|
    requires mem' == Appended(mem, msg)
    ensures HoldsQueue(mem', contents + [msg])
  {
    var n, e := |mem.cells|, mem.enqueuePos;
    forall t | mem.dequeuePos <= t < mem.dequeuePos + n && t != e ensures Slot(t, n) != Slot(e, n) {
      if Slot(t, n) == Slot(e, n) { SlotUnique(t, e, n); }
    }
  }

  lemma TakeHolds<T>(mem: Memory<T>, contents: seq<T>, residue: T, mem': Memory<T>)
    requires HoldsQueue(mem, contents) && contents != []
    requires mem' == Removed(mem, residue)
    ensures HoldsQueue(mem', contents[1..])
  {
    var n, d := |mem.cells|, mem.dequeuePos;
    assert Slot(d + n, n) == Slot(d, n);
    forall t | d < t < d + n ensures Slot(t, n) != Slot(d, n) {
      if Slot(t, n) == Slot(d, n) { SlotUnique(t, d, n); }
    }
  }
}
