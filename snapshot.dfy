/** The session snapshot kept under the settings key sessions/lastSession.
    The byte-level QDataStream encoding is abstracted to a sequence of tokens:
    a window count followed by one opaque state blob per window. */
module Snapshot {
  type Byte = bv8

  /** An opaque QByteArray, as produced by BrowserMainWindow::saveState(). */
  type Blob = seq<Byte>

  /** One value written to the stream: an int or a byte array. */
  datatype Item = Count(n: int) | State(blob: Blob)

  /** The content of the stored QByteArray; the empty stream is the empty array. */
  type Stream = seq<Item>

  /** What saveSession writes: the count, then each state in list order. */
  function Encode(states: seq<Blob>): (s: Stream)
    ensures |s| == |states| + 1
  {
    [Count(|states|)] + seq(|states|, i requires 0 <= i < |states| => State(states[i]))
  }

  /** `stream >> windowCount`: a QDataStream that cannot read an int (past the
      end, or a token of the other kind) yields 0. */
  function ReadCount(s: Stream): (n: int)
    ensures s != [] && s[0].Count? ==> n == s[0].n
    ensures n != 0 ==> s != [] && s[0] == Count(n)
  {
    if s != [] && s[0].Count? then s[0].n else 0
  }

  /** `stream >> windowState` at position pos: an empty array when nothing
      of that kind is there. */
  function ReadState(s: Stream, pos: nat): (b: Blob)
    ensures pos < |s| && s[pos].State? ==> b == s[pos].blob
    ensures b != [] ==> pos < |s| && s[pos] == State(b)
  {
    if pos < |s| && s[pos].State? then s[pos].blob else []
  }

  /** The number of states restoreLastSession reads: the stored count, or
      none at all when the count is negative. */
  function WindowCount(s: Stream): nat
  {
    if ReadCount(s) < 0 then 0 else ReadCount(s)
  }

  /** What restoreLastSession reads back: the count, then that many states. */
  function Decode(s: Stream): (states: seq<Blob>)
    ensures |states| == WindowCount(s)
    ensures forall i :: 0 <= i < |states| && states[i] != [] ==> i + 1 < |s| && s[i + 1] == State(states[i])
    ensures forall i :: 0 <= i < |states| && i + 1 < |s| && s[i + 1].State? ==> states[i] == s[i + 1].blob
  {
    seq(WindowCount(s), i requires 0 <= i < WindowCount(s) => ReadState(s, i + 1))
  }

  /** Decoding what was encoded gives back the same states in the same order. */
  lemma RoundTrip(states: seq<Blob>)
    ensures Decode(Encode(states)) == states
  {
    var s := Encode(states);
    assert ReadCount(s) == |states|;
    forall i | 0 <= i < |states|
      ensures Decode(s)[i] == states[i]
    {
      assert s[i + 1] == State(states[i]);
    }
  }

  /** A stored snapshot is never empty, even for zero windows: the count is
      always written. */
  lemma EncodeNonEmpty(states: seq<Blob>)
    ensures Encode(states) != [] && Encode(states)[0] == Count(|states|)
  {
  }

  /** The number of states read back is the stored count, clamped at zero;
      reading past the end gives empty states rather than fewer of them. */
  lemma DecodeLength(s: Stream)
    ensures |Decode(s)| == (if ReadCount(s) < 0 then 0 else ReadCount(s))
    ensures forall i :: 0 <= i < |Decode(s)| && i + 1 >= |s| ==> Decode(s)[i] == []
  {
  }
}
