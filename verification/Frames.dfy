/**
 * Type, length and payload, the first two as variable-length integers: the shape that HTTP/3 frames (section 7.1 of
 * RFC 9114) and capsules (section 3.2 of RFC 9297) share.
 */
module Frames {
  import opened Bits
  import opened Spans
  import Varint

  /** A frame on the wire; type and length may be in any of the four integer sizes. */
  datatype Frame = Frame(kind: seq<byte>, size: seq<byte>, payload: seq<byte>)

  predicate ValidFrame(f: Frame) {
    Varint.IsVarint(f.kind) && Varint.IsVarint(f.size) && Varint.Value(f.size) == |f.payload|
  }

  predicate ValidFrames(fs: seq<Frame>) {
    forall i :: 0 <= i < |fs| ==> ValidFrame(fs[i])
  }

  function FrameBytes(f: Frame): (s: seq<byte>) {
    f.kind + (f.size + f.payload)
  }

  function FramesBytes(fs: seq<Frame>): (s: seq<byte>) {
    if fs == [] then [] else FrameBytes(fs[0]) + FramesBytes(fs[1..])
  }

  lemma {:induction false} BytesSnoc(fs: seq<Frame>, f: Frame)
    ensures FramesBytes(fs + [f]) == FramesBytes(fs) + FrameBytes(f)
  {
    if fs == [] {
      assert fs + [f] == [f] && [f][1..] == [];
    } else {
      BytesSnoc(fs[1..], f);
      assert (fs + [f])[1..] == fs[1..] + [f];
      Associates(FrameBytes(fs[0]), FramesBytes(fs[1..]), FrameBytes(f));
    }
  }
}
