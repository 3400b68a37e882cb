/**
 * `ArrayQueue<T>`: a fixed-capacity FIFO ring buffer over a caller-supplied
 * array. The buffer is borrowed, not owned: the queue only remembers it.
 */
module Queue {

  /** The `Error` codes the queue returns. */
  datatype Error = Success | Full | Empty

  class ArrayQueue<T> {
    const data: array<T>
    var readPos: nat
    var writePos: nat
    var count: nat
    const capacity: nat

    /** The object invariant. For capacity 0 both positions stay 0. */
    ghost predicate Valid()
      reads this
    {
      && capacity <= data.Length
      && count <= capacity
      && (capacity == 0 ==> readPos == 0 && writePos == 0)
      && (capacity > 0 ==> readPos < capacity && writePos == Slot(count))
    }

    /** The array index of the value `i` places behind the read position,
        that is `(read_pos_ + i) % capacity_` for `i <= capacity_`. */
    function Slot(i: nat): (k: nat)
      reads this
      requires readPos < capacity && i <= capacity
      ensures k < capacity || (i == capacity && readPos == 0 && k == capacity)
    {
      if readPos + i < capacity then readPos + i else readPos + i - capacity
    }

    /** The queued values, oldest first. */
    ghost function Contents(): (s: seq<T>)
      reads this, data
      requires Valid()
      ensures |s| == count
    {
      if capacity == 0 then []
      else seq(count, i requires 0 <= i < count <= capacity && readPos < capacity <= data.Length reads this, data => data[Slot(i)])
    }

    /** `ArrayQueue(T* buf, size_t size)`: the first `size` slots of `buf`. */
    constructor (buf: array<T>, size: nat)
      requires size <= buf.Length
      ensures Valid() && data == buf && capacity == size
      ensures readPos == 0 && writePos == 0 && count == 0 && Contents() == []
      ensures unchanged(buf)
    {
      data := buf;
      readPos, writePos, count := 0, 0, 0;
      capacity := size;
    }

    /** `ArrayQueue(std::array<T, N>& buf)`: delegates with size N. */
    constructor FromArray(buf: array<T>)
      ensures Valid() && data == buf && capacity == buf.Length
      ensures readPos == 0 && writePos == 0 && count == 0 && Contents() == []
      ensures unchanged(buf)
    {
      data := buf;
      readPos, writePos, count := 0, 0, 0;
      capacity := buf.Length;
    }

    function Count(): (n: nat)
      reads this
      requires Valid()
      ensures n <= capacity
    {
      count
    }

    function Capacity(): (n: nat)
      reads this
      ensures n == capacity
    {
      capacity
    }

    method Push(value: T) returns (err: Error)
      requires Valid()
      modifies this, data
      ensures Valid()
      ensures err == (if old(count) == capacity then Full else Success)
      ensures err == Full ==> unchanged(this) && unchanged(data)
      ensures err == Success ==>
        && data[old(writePos)] == value
        && (forall k :: 0 <= k < data.Length && k != old(writePos) ==> data[k] == old(data[k]))
        && count == old(count) + 1
        && writePos == (if old(writePos) + 1 == capacity then 0 else old(writePos) + 1)
        && readPos == old(readPos)
      ensures Contents() == if err == Full then old(Contents()) else old(Contents()) + [value]
    {
      if count == capacity {
        return Full;
      }
      ghost var before := Contents();
      data[writePos] := value;
      count := count + 1;
      writePos := writePos + 1;
      if writePos == capacity {
        writePos := 0;
      }
      err := Success;
      assert Contents() == before + [value];
    }

    method Pop() returns (err: Error)
      requires Valid()
      modifies this
      ensures Valid()
      ensures err == (if old(count) == 0 then Empty else Success)
      ensures err == Empty ==> unchanged(this)
      ensures err == Success ==>
        && count == old(count) - 1
        && readPos == (if old(readPos) + 1 == capacity then 0 else old(readPos) + 1)
        && writePos == old(writePos)
      ensures unchanged(data)
      ensures Contents() == if err == Empty then old(Contents()) else old(Contents())[1..]
    {
      if count == 0 {
        return Empty;
      }
      ghost var before := Contents();
      count := count - 1;
      readPos := readPos + 1;
      if readPos == capacity {
        readPos := 0;
      }
      err := Success;
      assert Contents() == before[1..];
    }

    /** `Front()` reads the slot at `read_pos_`; on an empty queue that is a
        stale slot, and with capacity 0 it is out of bounds. */
    function Front(): (v: T)
      reads this, data
      requires Valid() && capacity > 0
      ensures v == data[readPos]
      ensures count > 0 ==> v == Contents()[0]
    {
      data[readPos]
    }
  }

}
