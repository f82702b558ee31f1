/**
 The stack of a Lua thread as memory: `top`, the open upvalues and the call frames hold addresses of
 slots, and `luaD_reallocstack` moves the block; `luaD_reallocCI` moves the block of the frames.
 Nothing that the object graph of `LuaHeap.dfy` says about a thread changes by that: its values, and
 the levels of its open upvalues.
 */
module LuaStack {
  import opened LuaHeap

  const EXTRA_STACK: int := 5
  const BASIC_STACK_SIZE: int := 40
  const BASIC_CI_SIZE: int := 8
  const LUA_MINSTACK: int := 20
  const LUAI_MAXCALLS: int := 20000

  datatype CallInfo = CallInfo(func: int, base: int, top: int)

  /** The frames with every address moved by `d`. */
  function MovedFrame(ci: CallInfo, d: int): CallInfo {
    CallInfo(ci.func + d, ci.base + d, ci.top + d)
  }

  /** The frame keeps inside the first `n` slots from `stack` on. */
  predicate FrameInside(ci: CallInfo, stack: int, n: int) {
    stack <= ci.func <= ci.base <= ci.top <= stack + n
  }

  /** The size of the block of frames after `checkstacksizes`, when `used` frames lie below the running one. */
  function FramesFor(size: int, used: int): int {
    if size <= LUAI_MAXCALLS && 4 * used < size && 2 * BASIC_CI_SIZE < size then size / 2 else size
  }

  /** The size of the stack after `checkstacksizes`, when `used` slots are in use. */
  function SlotsFor(frames: int, size: int, used: int): int {
    if frames <= LUAI_MAXCALLS && 4 * used < size && 2 * (BASIC_STACK_SIZE + EXTRA_STACK) < size then
      size / 2 + 1 + EXTRA_STACK
    else size
  }

  class LuaThread {
    var stack: int                  // the address of the block ...
    var slots: seq<Value>           // ... and what is in it
    var stacksize: int
    var stackLast: int
    var top: int
    var base: int
    var cells: array<int>           // the `v` of the open upvalues, in the order of their list
    var frames: array<CallInfo>     // the block of the frames, ...
    var baseCi: int                 // ... its address
    var ci: int                     // and that of the frame that runs
    var endCi: int
    var sizeCi: int

    /** The number of frames in use, `base_ci` to `ci`. */
    function Used(): int
      reads this
    {
      ci - baseCi + 1
    }

    /** What is in use lies in the first `n` slots, behind which `EXTRA_STACK` ones are spare. */
    ghost predicate Inside(n: int)
      reads this, cells, frames
    {
      && stack <= base <= top <= stack + n + EXTRA_STACK
      && (forall i :: 0 <= i < cells.Length ==> stack <= cells[i] < top)
      && (forall i :: 0 <= i < Used() && i < frames.Length ==> FrameInside(frames[i], stack, n))
    }

    ghost predicate Valid()
      reads this, cells, frames
    {
      && stacksize > EXTRA_STACK && stackLast == stack + stacksize - EXTRA_STACK - 1
      && |slots| == stacksize && Inside(stacksize - EXTRA_STACK - 1)
      && baseCi <= ci <= endCi == baseCi + sizeCi - 1 && sizeCi == frames.Length
    }

    /** The value at an address in the block. */
    function At(a: int): Value
      reads this
      requires stack <= a < stack + |slots|
    {
      slots[a - stack]
    }

    /** The values of the stack, from the bottom. */
    ghost function Values(): (s: seq<Value>)
      reads this, cells, frames
      requires Valid()
    {
      slots[..top - stack]
    }

    /** The levels of the open upvalues. */
    ghost function Levels(): seq<int>
      reads this, cells
    {
      seq(cells.Length, i requires 0 <= i < cells.Length reads this, cells => cells[i] - stack)
    }

    /** The value that the `i`-th open upvalue refers to. */
    function Read(i: nat): Value
      reads this, cells, frames
      requires Valid() && i < cells.Length
    {
      At(cells[i])
    }

    /** An upvalue reads the value at its level. */
    lemma ReadsLevel(i: nat)
      requires Valid() && i < cells.Length
      ensures 0 <= Levels()[i] < |Values()| && Read(i) == Values()[Levels()[i]]
    {
    }

    /** The slots of the frame above `top` are nil. */
    ghost predicate Cleared(ci: CallInfo)
      reads this
    {
      ci.top < stack + |slots| && forall i :: 0 <= top - stack <= i <= ci.top - stack ==> slots[i] == Prim(0)
    }

    /** Everything is at the same place of the stack as before. */
    twostate predicate SamePlaces()
      reads this, cells, frames
    {
      && top - stack == old(top - stack) && base - stack == old(base - stack)
      && Used() == old(Used()) <= frames.Length && Used() <= old(frames.Length)
      && forall i :: 0 <= i < Used() ==> frames[i] == MovedFrame(old(frames[i]), stack - old(stack))
    }

    /** `stack_init`: the block is at `address`, and one frame without a function in it is in use. */
    constructor (address: int, frameAddress: int)
      ensures Valid() && Values() == [Prim(0)] && Levels() == [] && Used() == 1 && fresh(cells) && fresh(frames)
    {
      stack, stacksize := address, BASIC_STACK_SIZE + EXTRA_STACK;
      slots := seq(BASIC_STACK_SIZE + EXTRA_STACK, i => Prim(0));
      stackLast := address + BASIC_STACK_SIZE - 1;
      top, base, sizeCi := address + 1, address + 1, BASIC_CI_SIZE;
      cells := new int[0];
      frames := new CallInfo[BASIC_CI_SIZE](i => CallInfo(address, address + 1, address + 1 + LUA_MINSTACK));
      baseCi, ci, endCi := frameAddress, frameAddress, frameAddress + BASIC_CI_SIZE - 1;
    }

    /** `luaM_reallocvector` has moved the block to `newstack`; the contents of new slots are not known. */
    method MoveBlock(newstack: int, realsize: nat, rest: Value)
      modifies this`slots, this`stack, this`stacksize
      ensures stack == newstack && stacksize == realsize == |slots|
      ensures forall i :: 0 <= i < realsize && i < old(|slots|) ==> slots[i] == old(slots)[i]
    {
      slots := seq(realsize, i requires 0 <= i < realsize reads this => if i < |slots| then slots[i] else rest);
      stack, stacksize := newstack, realsize;
    }

    /** `correctstack` */
    method CorrectStack(oldstack: int)
      requires 0 <= Used() <= frames.Length
      modifies this`top, this`base, cells, frames
      ensures top == old(top) - oldstack + stack && base == old(base) - oldstack + stack
      ensures forall i :: 0 <= i < cells.Length ==> cells[i] == old(cells[i]) - oldstack + stack
      ensures forall i :: 0 <= i < Used() ==> frames[i] == MovedFrame(old(frames[i]), stack - oldstack)
    {
      top := top - oldstack + stack;
      var i := 0;
      while i < cells.Length
        invariant 0 <= i <= cells.Length
        invariant forall j :: 0 <= j < cells.Length ==>
            cells[j] == if j < i then old(cells[j]) - oldstack + stack else old(cells[j])
        modifies cells
      {
        cells[i] := cells[i] - oldstack + stack;
        i := i + 1;
      }
      i := 0;
      while i < Used()
        invariant 0 <= i <= Used()
        invariant forall j :: 0 <= j < Used() ==>
            frames[j] == if j < i then MovedFrame(old(frames[j]), stack - oldstack) else old(frames[j])
        modifies frames
      {
        var f := frames[i];
        frames[i] := CallInfo(f.func - oldstack + stack, f.base - oldstack + stack, f.top - oldstack + stack);
        i := i + 1;
      }
      base := base - oldstack + stack;
    }

    /** `luaD_reallocstack`: the block is now at `newstack`, and the thread is what it was. */
    method ReallocStack(newsize: int, newstack: int, rest: Value)
      requires Valid() && newsize >= 0 && Inside(newsize)
      modifies this`slots, this`stack, this`stacksize, this`stackLast, this`top, this`base, cells, frames
      ensures Valid() && stackLast == stack + newsize && stack == newstack && SamePlaces()
      ensures Values() == old(Values()) && Levels() == old(Levels())
      ensures forall i :: 0 <= i < cells.Length ==> Read(i) == old(Read(i))
      ensures forall i :: 0 <= i < |slots| && i < old(|slots|) ==> slots[i] == old(slots)[i]
    {
      var oldstack := stack;
      var realsize := newsize + 1 + EXTRA_STACK;
      MoveBlock(newstack, realsize, rest);
      stackLast := stack + newsize;
      CorrectStack(oldstack);
    }

    /** `luaD_reallocCI`: the block of the frames is now at `newbase`; those in use stay the same. */
    method ReallocCI(newsize: nat, newbase: int, spare: CallInfo)
      requires Valid() && Used() <= newsize
      modifies this`frames, this`baseCi, this`ci, this`endCi, this`sizeCi
      ensures Valid() && fresh(frames) && sizeCi == newsize && baseCi == newbase && SamePlaces()
    {
      var oldci, olds := baseCi, frames;
      frames := new CallInfo[newsize](i requires 0 <= i < newsize reads olds =>
          if i < olds.Length then olds[i] else spare);
      baseCi, sizeCi := newbase, newsize;
      ci := (ci - oldci) + baseCi;
      endCi := baseCi + sizeCi - 1;
    }

    /** `luaD_checkstack`, with `luaD_growstack`: afterwards there is room for `n` more values. */
    method CheckStack(n: nat, newstack: int, rest: Value)
      requires Valid()
      modifies this`slots, this`stack, this`stacksize, this`stackLast, this`top, this`base, cells, frames
      ensures Valid() && SamePlaces() && stackLast - top >= n
      ensures Values() == old(Values()) && Levels() == old(Levels())
      ensures forall i :: 0 <= i < cells.Length ==> Read(i) == old(Read(i))
    {
      if stackLast - top <= n {
        ReallocStack(if n <= stacksize then 2 * stacksize else stacksize + n, newstack, rest);
      }
    }

    /** The collector's work on a stack, `traversestack`, behind the marking: the slots above `top` that a frame
        may use are cleared, and a stack of which little is in use is halved. */
    method TraverseStack(newstack: int, rest: Value, newCi: int, spare: CallInfo)
      requires Valid()
      modifies this`slots, this`stack, this`stacksize, this`stackLast, this`top, this`base, this`frames,
          this`baseCi, this`ci, this`endCi, this`sizeCi, cells, frames
      ensures Valid() && SamePlaces()
      ensures Values() == old(Values()) && Levels() == old(Levels())
      ensures forall i :: 0 <= i < cells.Length ==> Read(i) == old(Read(i))
      ensures forall i :: 0 <= i < Used() ==> Cleared(frames[i])
    {
      var lim := Limit();
      ClearTo(lim);
      CheckStackSizes(lim, newstack, rest, newCi, spare);
    }

    /** `checkstacksizes`, where the slots up to `lim` may be in use. */
    method CheckStackSizes(lim: int, newstack: int, rest: Value, newCi: int, spare: CallInfo)
      requires Valid() && top <= lim < stack + stacksize && forall i :: 0 <= i < Used() ==> frames[i].top <= lim
      modifies this`slots, this`stack, this`stacksize, this`stackLast, this`top, this`base, this`frames,
          this`baseCi, this`ci, this`endCi, this`sizeCi, cells, frames
      ensures Valid() && SamePlaces()
      ensures Values() == old(Values()) && Levels() == old(Levels())
      ensures forall i :: 0 <= i < cells.Length ==> Read(i) == old(Read(i))
      ensures sizeCi == FramesFor(old(sizeCi), Used() - 1)
      ensures stacksize == SlotsFor(old(sizeCi), old(stacksize), lim - old(stack))
      ensures |slots| > lim - old(stack) && forall i :: 0 <= i <= lim - old(stack) ==> slots[i] == old(slots)[i]
    {
      var ciUsed, sUsed := ci - baseCi, lim - stack;
      if sizeCi > LUAI_MAXCALLS {              // handling overflow
        return;
      }
      ShrinkFrames(ciUsed, newCi, spare);
      ShrinkSlots(sUsed, newstack, rest);
    }

    method ShrinkFrames(ciUsed: int, newCi: int, spare: CallInfo)
      requires Valid() && ciUsed == Used() - 1 && sizeCi <= LUAI_MAXCALLS
      modifies this`frames, this`baseCi, this`ci, this`endCi, this`sizeCi
      ensures Valid() && SamePlaces() && sizeCi == FramesFor(old(sizeCi), ciUsed)
      ensures frames == old(frames) || fresh(frames)
    {
      if 4 * ciUsed < sizeCi && 2 * BASIC_CI_SIZE < sizeCi {
        ReallocCI(sizeCi / 2, newCi, spare);
      }
    }

    method ShrinkSlots(sUsed: int, newstack: int, rest: Value)
      requires Valid() && top - stack <= sUsed < stacksize && sizeCi <= LUAI_MAXCALLS
      requires forall i :: 0 <= i < Used() ==> frames[i].top <= stack + sUsed
      modifies this`slots, this`stack, this`stacksize, this`stackLast, this`top, this`base, cells, frames
      ensures Valid() && SamePlaces() && stacksize == SlotsFor(sizeCi, old(stacksize), sUsed)
      ensures Values() == old(Values()) && Levels() == old(Levels())
      ensures forall i :: 0 <= i < cells.Length ==> Read(i) == old(Read(i))
      ensures |slots| > sUsed && forall i :: 0 <= i <= sUsed ==> slots[i] == old(slots)[i]
    {
      if 4 * sUsed < stacksize && 2 * (BASIC_STACK_SIZE + EXTRA_STACK) < stacksize {
        ReallocStack(stacksize / 2, newstack, rest);
      }
    }

    method ClearTo(lim: int)
      requires Valid() && top <= lim < stack + stacksize
      modifies this`slots
      ensures Valid() && |slots| == |old(slots)| && Values() == old(Values())
      ensures forall i :: top - stack <= i <= lim - stack ==> slots[i] == Prim(0)
    {
      var o := top;
      while o <= lim
        invariant top <= o <= lim + 1 && |slots| == |old(slots)|
        invariant forall i :: 0 <= i < |slots| ==> slots[i] == if top - stack <= i < o - stack then Prim(0)
            else old(slots)[i]
      {
        slots := slots[o - stack := Prim(0)];
        o := o + 1;
      }
    }

    /** The highest slot that may be in use. */
    method Limit() returns (lim: int)
      requires Valid()
      ensures top <= lim < stack + stacksize && forall i :: 0 <= i < Used() ==> frames[i].top <= lim
    {
      lim := top;
      var i := 0;
      while i < Used()
        invariant 0 <= i <= Used() && top <= lim < stack + stacksize
        invariant forall j :: 0 <= j < i ==> frames[j].top <= lim
      {
        assert FrameInside(frames[i], stack, stacksize - EXTRA_STACK - 1);
        if lim < frames[i].top {
          lim := frames[i].top;
        }
        i := i + 1;
      }
    }
  }
}
