/** The bounded buffer of common/circularbuffer.hpp. */
module CircularBuffers {

  /** std::deque(size): that many value-initialised elements. */
  function Filled<T>(zero: T, size: nat): seq<T> { seq(size, _ => zero) }

  /** One push_back: the newest value enters behind, and the oldest leaves when there are too many. */
  function Push<T>(buffer: seq<T>, val: T, size: nat): seq<T> {
    var grown := buffer + [val];
    if |grown| > size then grown[1..] else grown
  }

  function PushAll<T>(buffer: seq<T>, vals: seq<T>, size: nat): seq<T> {
    if vals == [] then buffer else Push(PushAll(buffer, vals[..|vals| - 1], size), vals[|vals| - 1], size)
  }

  /** The last `size` of the pushed values, with the initial filling in front when there are fewer. */
  function Window<T>(zero: T, pushed: seq<T>, size: nat): seq<T> {
    (Filled(zero, size) + pushed)[|pushed|..]
  }

  /** Whatever is pushed, the buffer holds exactly the last `size` values padded with the initial ones. */
  lemma {:induction false} PushAllIsWindow<T>(zero: T, pushed: seq<T>, size: nat)
    ensures PushAll(Filled(zero, size), pushed, size) == Window(zero, pushed, size)
  {
    if pushed == [] {
    } else {
      var init := pushed[..|pushed| - 1];
      PushAllIsWindow(zero, init, size);
      assert Filled(zero, size) + pushed == (Filled(zero, size) + init) + [pushed[|pushed| - 1]];
    }
  }

  class CircularBuffer<T> {
    var buffer: seq<T>
    const size: nat
    ghost const zero: T
    ghost var pushed: seq<T>

    ghost predicate Valid()
      reads this
    {
      |buffer| == size && buffer == Window(zero, pushed, size)
    }

    constructor (size: nat, zero: T)
      ensures Valid() && this.size == size && this.zero == zero && pushed == []
    {
      this.size := size;
      this.zero := zero;
      buffer := Filled(zero, size);
      pushed := [];
    }

    method PushBack(val: T)
      requires Valid()
      modifies this
      ensures Valid() && pushed == old(pushed) + [val]
      ensures buffer == Push(old(buffer), val, size)
    {
      assert (Filled(zero, size) + pushed) + [val] == Filled(zero, size) + (pushed + [val]);
      buffer := buffer + [val];
      if |buffer| > size {
        buffer := buffer[1..];
      }
      pushed := pushed + [val];
    }
  }
}
