/** Byte streams with end-of-packet marks, as they pass between the blocks. */
module ByteStream {
  import opened BitVectors

  /** One transferred word. */
  datatype Word = Word(data: Byte, last: bool)

  /** One cycle at the input of a block that cannot stall its sender. */
  datatype Input = Pause | Arrival(byte: Byte, last: bool)

  /** Cycles of a stall pattern in which the receiver is ready. */
  function Readies(readies: seq<bool>): nat {
    if readies == [] then 0 else (if readies[0] then 1 else 0) + Readies(readies[1..])
  }

  /** The inputs carry these bytes in order, with any gaps, the last one and only it marked. */
  predicate Carries(inputs: seq<Input>, bytes: seq<Byte>)
    decreases |inputs|
  {
    if inputs == [] then bytes == []
    else match inputs[0]
         case Pause => Carries(inputs[1..], bytes)
         case Arrival(b, last) => bytes != [] && b == bytes[0] && last == (|bytes| == 1) && Carries(inputs[1..], bytes[1..])
  }

  /** The inputs are these words in order, with any gaps. */
  predicate Received(inputs: seq<Input>, words: seq<Word>)
    decreases |inputs|
  {
    if inputs == [] then words == []
    else match inputs[0]
         case Pause => Received(inputs[1..], words)
         case Arrival(b, last) => words != [] && words[0] == Word(b, last) && Received(inputs[1..], words[1..])
  }

  /** The words are the bytes, the last one and only it marked. */
  predicate Marks(words: seq<Word>, bytes: seq<Byte>) {
    |words| == |bytes| && forall i :: 0 <= i < |words| ==> words[i] == Word(bytes[i], i == |bytes| - 1)
  }

  /** Words of a packet whose end has not come yet. */
  function Plain(bytes: seq<Byte>): (w: seq<Word>)
    ensures |w| == |bytes|
  {
    seq(|bytes|, i requires 0 <= i < |bytes| => Word(bytes[i], false))
  }

  /** The words of a whole packet. */
  function PacketWords(bytes: seq<Byte>): (w: seq<Word>)
    ensures |w| == |bytes|
  {
    seq(|bytes|, i requires 0 <= i < |bytes| => Word(bytes[i], i == |bytes| - 1))
  }

  /** The words of whole packets, one after the other. */
  function AllWords(ps: seq<seq<Byte>>): seq<Word> {
    if ps == [] then [] else AllWords(ps[..|ps| - 1]) + PacketWords(ps[|ps| - 1])
  }

  lemma {:induction false} ReceivedCarries(inputs: seq<Input>, words: seq<Word>, bytes: seq<Byte>)
    requires Received(inputs, words) && Marks(words, bytes)
    ensures Carries(inputs, bytes)
    decreases |inputs|
  {
    if inputs != [] {
      if inputs[0].Pause? {
        ReceivedCarries(inputs[1..], words, bytes);
      } else {
        ReceivedCarries(inputs[1..], words[1..], bytes[1..]);
      }
    }
  }

  lemma Associative<T>(a: seq<T>, b: seq<T>, c: seq<T>)
    ensures (a + b) + c == a + (b + c)
  {
  }

  function Flatten<T>(ss: seq<seq<T>>): seq<T> {
    if ss == [] then [] else ss[0] + Flatten(ss[1..])
  }

  lemma {:induction false} FlattenAppend<T>(a: seq<seq<T>>, b: seq<seq<T>>)
    ensures Flatten(a + b) == Flatten(a) + Flatten(b)
    decreases |a|
  {
    if a == [] {
      assert a + b == b;
    } else {
      assert (a + b)[1..] == a[1..] + b;
      FlattenAppend(a[1..], b);
    }
  }

  lemma FlattenOne<T>(p: seq<T>)
    ensures Flatten([p]) == p
  {
    assert [p][1..] == [];
    assert Flatten([p]) == p + Flatten([]);
  }
}
