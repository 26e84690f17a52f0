/**
 The ring buffer FIFO in src/framework/MicroServiceExtra.h: what it holds, and when it behaves as a
 queue.
 */
module Fifo {
  import opened Common

  const TWO_32: nat := 0x1_0000_0000

  /** The items that can still be read, oldest first, and the two counters. */
  datatype State<T> = State(contents: seq<T>, used: nat, maxEver: nat)

  datatype Op<T> = Write(t: T) | Read

  function Max(a: nat, b: nat): nat
  {
    if a < b then b else a
  }

  /** One more item; the one that takes the last place makes the buffer look empty. */
  function Wrote<T>(size: nat, s: State<T>, t: T): State<T>
  {
    var used := (s.used + 1) % TWO_32;
    State(if |s.contents| + 1 == size then [] else s.contents + [t], used, Max(used, s.maxEver))
  }

  function Taken<T>(s: State<T>): State<T>
  {
    if s.contents == [] then s else s.(contents := s.contents[1..], used := (s.used - 1) % TWO_32)
  }

  function First<T>(contents: seq<T>): Option<T>
  {
    if contents == [] then None else Some(contents[0])
  }

  /** What lies between the read and the write position, around the end of the buffer if need be. */
  function Circular<T>(buffer: seq<T>, read: nat, write: nat): seq<T>
    requires read < |buffer| && write < |buffer|
  {
    if read <= write then buffer[read..write] else buffer[read..] + buffer[..write]
  }

  function Advanced(position: nat, size: nat): nat
  {
    if position + 1 == size then 0 else position + 1
  }

  lemma ReadAdvances<T>(buffer: seq<T>, read: nat, write: nat)
    requires read < |buffer| && write < |buffer| && read != write
    ensures Circular(buffer, read, write) != [] && Circular(buffer, read, write)[0] == buffer[read]
    ensures Circular(buffer, Advanced(read, |buffer|), write) == Circular(buffer, read, write)[1..]
  {
  }

  lemma WriteAdvances<T>(buffer: seq<T>, read: nat, write: nat, t: T)
    requires read < |buffer| && write < |buffer|
    ensures var was := Circular(buffer, read, write);
      Circular(buffer[write := t], read, Advanced(write, |buffer|))
        == if |was| + 1 == |buffer| then [] else was + [t]
  {
  }

  class FIFO<T(0)> {
    const Size_: nat
    var Read_: nat
    var Write_: nat
    var Used_: nat
    var MaxEverUsed_: nat
    const Buffer_: array<T>

    ghost predicate Valid()
      reads this
    {
      Buffer_.Length == Size_ && Read_ < Size_ && Write_ < Size_
    }

    ghost function Contents(): seq<T>
      requires Valid()
      reads this, Buffer_
    {
      Circular(Buffer_[..], Read_, Write_)
    }

    ghost function View(): State<T>
      requires Valid()
      reads this, Buffer_
    {
      State(Contents(), Used_, MaxEverUsed_)
    }

    /** A buffer of size zero can be made, but no write fits into it. */
    constructor (size: nat)
      requires size < TWO_32
      ensures Size_ == size && fresh(Buffer_) && (Valid() <==> size >= 1)
      ensures size >= 1 ==> View() == State([], 0, 0)
    {
      Size_ := size;
      Buffer_ := new T[size];
      Read_, Write_, Used_, MaxEverUsed_ := 0, 0, 0, 0;
    }

    method Read() returns (ok: bool, t: Option<T>)
      requires Valid()
      modifies this
      ensures Valid() && View() == Taken(old(View()))
      ensures t == First(old(Contents())) && ok == t.Some?
    {
      if Write_ == Read_ {
        return false, None;
      }
      ReadAdvances(Buffer_[..], Read_, Write_);
      t := Some(Buffer_[Read_]);
      Read_ := Read_ + 1;
      if Read_ == Size_ {
        Read_ := 0;
      }
      Used_ := (Used_ - 1) % TWO_32;
      return true, t;
    }

    /** Takes the item whether or not there is room, and answers false either way. */
    method Write(t: T) returns (ok: bool)
      requires Valid()
      modifies this, Buffer_
      ensures Valid() && View() == Wrote(Size_, old(View()), t)
      ensures !ok
    {
      WriteAdvances(Buffer_[..], Read_, Write_, t);
      Buffer_[Write_] := t;
      Write_ := Write_ + 1;
      if Write_ == Size_ {
        Write_ := 0;
      }
      Used_ := (Used_ + 1) % TWO_32;
      MaxEverUsed_ := Max(Used_, MaxEverUsed_);
      return false;
    }

    method MaxEverUser() returns (r: nat)
      requires Valid()
      ensures r == View().maxEver
    {
      return MaxEverUsed_;
    }
  }

  // ---- Runs -------------------------------------------------------------------------------------

  function Next<T>(size: nat, s: State<T>, op: Op<T>): State<T>
  {
    match op
    case Write(t) => Wrote(size, s, t)
    case Read => Taken(s)
  }

  /** A queue of unlimited length. */
  function NextQueue<T>(q: seq<T>, op: Op<T>): seq<T>
  {
    match op
    case Write(t) => q + [t]
    case Read => if q == [] then q else q[1..]
  }

  /** What the reads of a run return, given how the operations change what can be read. */
  function Answers<T>(size: nat, s: State<T>, ops: seq<Op<T>>): seq<Option<T>>
    decreases ops
  {
    if ops == [] then []
    else (if ops[0].Read? then [First(s.contents)] else []) + Answers(size, Next(size, s, ops[0]), ops[1..])
  }

  function QueueAnswers<T>(q: seq<T>, ops: seq<Op<T>>): seq<Option<T>>
    decreases ops
  {
    if ops == [] then []
    else (if ops[0].Read? then [First(q)] else []) + QueueAnswers(NextQueue(q, ops[0]), ops[1..])
  }

  function End<T>(size: nat, s: State<T>, ops: seq<Op<T>>): State<T>
    decreases ops
  {
    if ops == [] then s else End(size, Next(size, s, ops[0]), ops[1..])
  }

  function EndQueue<T>(q: seq<T>, ops: seq<Op<T>>): seq<T>
    decreases ops
  {
    if ops == [] then q else EndQueue(NextQueue(q, ops[0]), ops[1..])
  }

  /** The greatest length of the queue over a run. */
  function Peak<T>(q: seq<T>, ops: seq<Op<T>>): nat
    decreases ops
  {
    if ops == [] then |q| else Max(|q|, Peak(NextQueue(q, ops[0]), ops[1..]))
  }

  /** The buffer holds what the queue holds, now and after every operation of the run. */
  ghost predicate Agree<T(!new)>(size: nat, s: State<T>, q: seq<T>, ops: seq<Op<T>>)
    decreases ops
  {
    s.contents == q && (ops == [] || Agree(size, Next(size, s, ops[0]), NextQueue(q, ops[0]), ops[1..]))
  }

  /** The buffer is a queue exactly as long as at most Size - 1 items are outstanding. */
  lemma {:induction false} QueueIffItFits<T(!new)>(size: nat, s: State<T>, ops: seq<Op<T>>)
    requires |s.contents| < size
    ensures Agree(size, s, s.contents, ops) <==> Peak(s.contents, ops) < size
    decreases ops
  {
    if ops != [] {
      var next := Next(size, s, ops[0]);
      if ops[0].Write? && |s.contents| + 1 == size {
        assert next.contents == [] && |NextQueue(s.contents, ops[0])| == size;
        PeakFromStart(NextQueue(s.contents, ops[0]), ops[1..]);
      } else {
        QueueIffItFits(size, next, ops[1..]);
      }
    }
  }

  lemma PeakFromStart<T>(q: seq<T>, ops: seq<Op<T>>)
    ensures Peak(q, ops) >= |q|
  {
  }

  /** While it fits, the reads, the counters and the contents are those of the queue. */
  lemma {:induction false} FittingRun<T(!new)>(size: nat, s: State<T>, ops: seq<Op<T>>)
    requires size < TWO_32 && Peak(s.contents, ops) < size && s.used == |s.contents| <= s.maxEver
    ensures Answers(size, s, ops) == QueueAnswers(s.contents, ops)
    ensures End(size, s, ops).contents == EndQueue(s.contents, ops)
    ensures End(size, s, ops).used == |EndQueue(s.contents, ops)|
    ensures End(size, s, ops).maxEver == Max(s.maxEver, Peak(s.contents, ops))
    decreases ops
  {
    if ops != [] {
      PeakFromStart(NextQueue(s.contents, ops[0]), ops[1..]);
      FittingRun(size, Next(size, s, ops[0]), ops[1..]);
    }
  }

  /** With Size items outstanding the buffer reports empty, and a read leaves it as it is. */
  lemma {:induction false} FullLooksEmpty<T>(size: nat, s: State<T>, items: seq<T>)
    requires |s.contents| + |items| == size && items != []
    ensures End(size, s, Writes(items)).contents == []
    ensures Taken(End(size, s, Writes(items))) == End(size, s, Writes(items))
    decreases items
  {
    assert Writes(items)[1..] == Writes(items[1..]);
    if |items| > 1 {
      FullLooksEmpty(size, Wrote(size, s, items[0]), items[1..]);
    } else {
      assert Writes(items[1..]) == [];
    }
  }

  function Writes<T>(items: seq<T>): (r: seq<Op<T>>)
    ensures |r| == |items| && forall i | 0 <= i < |items| :: r[i] == Write(items[i])
  {
    seq(|items|, i requires 0 <= i < |items| => Write(items[i]))
  }

  /** How many operations of a run are writes, and how many reads find something. */
  function WriteCount<T>(ops: seq<Op<T>>): nat
  {
    if ops == [] then 0 else (if ops[0].Write? then 1 else 0) + WriteCount(ops[1..])
  }

  function ReadCount<T>(size: nat, s: State<T>, ops: seq<Op<T>>): nat
    decreases ops
  {
    if ops == [] then 0
    else (if ops[0].Read? && s.contents != [] then 1 else 0) + ReadCount(size, Next(size, s, ops[0]), ops[1..])
  }

  /** Fitting or not, Used_ counts writes less successful reads, in 32 bits. */
  lemma {:induction false} UsedIsModular<T>(size: nat, s: State<T>, ops: seq<Op<T>>)
    requires s.used < TWO_32
    ensures End(size, s, ops).used == (s.used + WriteCount(ops) - ReadCount(size, s, ops)) % 0x1_0000_0000
    decreases ops
  {
    if ops != [] {
      var next := Next(size, s, ops[0]);
      UsedIsModular(size, next, ops[1..]);
      var change := if ops[0].Write? then 1 else if s.contents != [] then -1 else 0;
      OneMoreModular(s.used, change, WriteCount(ops[1..]) - ReadCount(size, next, ops[1..]));
    }
  }

  lemma OneMoreModular(used: int, change: int, rest: int)
    ensures ((used + change) % TWO_32 + rest) % TWO_32 == (used + change + rest) % TWO_32
  {
    var q := (used + change) / TWO_32;
    assert (used + change) % TWO_32 == used + change - q * TWO_32;
  }
}
