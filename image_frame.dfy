/**
 * The image frame protocol of the load-average example generator: each
 * PNG is written to standard output as the line `DECKFS_IMG_START`, a line
 * holding the payload's byte count in decimal, the payload bytes, and the
 * line `DECKFS_IMG_END`; the output is one frame after another. A frame
 * reader, `ParseFrame`, is given here as the partner of the writer.
 */
module ImageFrames {

  import opened Wrappers
  import opened Text

  newtype Byte = b: int | 0 <= b < 256

  type Bytes = seq<Byte>

  const Newline: Byte := 10

  predicate IsAscii(s: string)
  {
    forall k | 0 <= k < |s| :: s[k] < 128 as char
  }

  /** `s.encode()` for ASCII text: one byte per character. */
  function Ascii(s: string): (b: Bytes)
    requires IsAscii(s)
    ensures |b| == |s| && forall k | 0 <= k < |s| :: b[k] as int == s[k] as int
  {
    if s == [] then [] else Ascii(s[..|s| - 1]) + [s[|s| - 1] as int as Byte]
  }

  /** Bytes read back as characters, one per byte. */
  function Chars(b: Bytes): (s: string)
    ensures |s| == |b| && forall k | 0 <= k < |b| :: s[k] as int == b[k] as int
  {
    if b == [] then [] else Chars(b[..|b| - 1]) + [b[|b| - 1] as int as char]
  }

  lemma CharsOfAscii(s: string)
    requires IsAscii(s)
    ensures Chars(Ascii(s)) == s
  {
    var t := Chars(Ascii(s));
    assert forall k | 0 <= k < |s| :: t[k] == s[k];
  }

  /** `b"DECKFS_IMG_START\n"`. */
  const StartMarker: Bytes := [68, 69, 67, 75, 70, 83, 95, 73, 77, 71, 95, 83, 84, 65, 82, 84, 10]

  /** `b"DECKFS_IMG_END\n"`. */
  const EndMarker: Bytes := [68, 69, 67, 75, 70, 83, 95, 73, 77, 71, 95, 69, 78, 68, 10]

  /** The two marker lines are the ASCII text they stand for. */
  lemma MarkersAreText()
    ensures StartMarker == Ascii("DECKFS_IMG_START\n")
    ensures EndMarker == Ascii("DECKFS_IMG_END\n")
  {
  }

  lemma DigitsAreAscii(n: nat)
    ensures IsAscii(NatToString(n) + "\n")
  {
    var s := NatToString(n);
    assert forall k | 0 <= k < |s| :: IsDigit(s[k]);
  }

  /** `f"{len(image_bytes)}\n".encode()`. */
  function LengthLine(n: nat): (b: Bytes)
    ensures |b| == |NatToString(n)| + 1 && b[|b| - 1] == Newline
    ensures forall k | 0 <= k < |b| - 1 :: b[k] != Newline
  {
    DigitsAreAscii(n);
    var digits := NatToString(n);
    var b := Ascii(digits + "\n");
    assert forall k | 0 <= k < |digits| :: IsDigit(digits[k]) && b[k] as int == digits[k] as int;
    b
  }

  /** `send_image`'s bytes for one payload. */
  function Frame(payload: Bytes): (f: Bytes)
    ensures |f| == 17 + |NatToString(|payload|)| + 1 + |payload| + 15
  {
    StartMarker + LengthLine(|payload|) + payload + EndMarker
  }

  /** The index of the first newline byte, or the length when there is none. */
  function NewlineIndex(b: Bytes): (i: nat)
    ensures i <= |b| && (i < |b| ==> b[i] == Newline)
    ensures forall k | 0 <= k < i :: b[k] != Newline
  {
    if b == [] then 0
    else if b[0] == Newline then 0
    else 1 + NewlineIndex(b[1..])
  }

  /**
   * Reads one frame from the front of a stream: the start line, a decimal
   * length line (read as `int` reads it: ASCII digits, leading zeros
   * allowed), that many payload bytes and the end line. Gives the payload
   * and the rest of the stream, or `None` when the front is not a frame.
   */
  function ParseFrame(stream: Bytes): (r: Option<(Bytes, Bytes)>)
    ensures r.Some? ==> |r.value.1| < |stream|
  {
    if |stream| < 17 || stream[..17] != StartMarker then None
    else
      var afterStart := stream[17..];
      var nl := NewlineIndex(afterStart);
      if nl == |afterStart| then None
      else
        match ParseNat(Chars(afterStart[..nl]))
        case None => None
        case Some(n) =>
          var body := afterStart[nl + 1..];
          if |body| < n + 15 || body[n..n + 15] != EndMarker then None
          else Some((body[..n], body[n + 15..]))
  }

  /** The length line of a frame parses back to exactly the payload's byte count. */
  lemma LengthLineParses(n: nat, tail: Bytes)
    ensures NewlineIndex(LengthLine(n) + tail) == |NatToString(n)|
    ensures ParseNat(Chars((LengthLine(n) + tail)[..|NatToString(n)|])) == Some(n)
  {
    var line := LengthLine(n);
    var digits := NatToString(n);
    var b := line + tail;
    NewlineIndexStops(b, |digits|);
    DigitsAreAscii(n);
    assert b[..|digits|] == Ascii(digits) by {
      assert forall k | 0 <= k < |digits| :: b[k] as int == digits[k] as int;
    }
    CharsOfAscii(digits);
    ParseNatToString(n);
  }

  lemma NewlineIndexStops(b: Bytes, i: nat)
    requires i < |b| && b[i] == Newline
    requires forall k | 0 <= k < i :: b[k] != Newline
    ensures NewlineIndex(b) == i
    decreases i
  {
    if i > 0 {
      NewlineIndexStops(b[1..], i - 1);
    }
  }

  /** Reading a frame back from the front of a stream gives its payload and leaves the rest. */
  lemma FrameRoundTrip(payload: Bytes, rest: Bytes)
    ensures ParseFrame(Frame(payload) + rest) == Some((payload, rest))
  {
    var n := |payload|;
    var stream := Frame(payload) + rest;
    var line := LengthLine(n);
    assert stream == StartMarker + (line + (payload + EndMarker + rest));
    var afterStart := stream[17..];
    assert afterStart == line + (payload + EndMarker + rest);
    LengthLineParses(n, payload + EndMarker + rest);
    var nl := |NatToString(n)|;
    var body := afterStart[nl + 1..];
    assert body == payload + EndMarker + rest;
    assert body[..n] == payload;
    assert body[n..n + 15] == EndMarker;
    assert body[n + 15..] == rest;
  }

  /** The chunks written one after another. */
  function Concat(chunks: seq<Bytes>): Bytes
  {
    if chunks == [] then [] else Concat(chunks[..|chunks| - 1]) + chunks[|chunks| - 1]
  }

  /** Written one after another, the chunks start with the first. */
  lemma {:induction false} ConcatCons(chunks: seq<Bytes>)
    requires chunks != []
    ensures Concat(chunks) == chunks[0] + Concat(chunks[1..])
    decreases |chunks|
  {
    if |chunks| > 1 {
      var init := chunks[..|chunks| - 1];
      ConcatCons(init);
      assert init[1..] == chunks[1..][..|chunks[1..]| - 1];
    } else {
      assert chunks[1..] == [];
    }
  }

  /** The frame of each image, in order. */
  function FrameList(images: seq<Bytes>): (frames: seq<Bytes>)
    ensures |frames| == |images| && forall k | 0 <= k < |images| :: frames[k] == Frame(images[k])
  {
    seq(|images|, k requires 0 <= k < |images| => Frame(images[k]))
  }

  /** The output of a run that sends `images` in turn. */
  function Frames(images: seq<Bytes>): Bytes
  {
    Concat(FrameList(images))
  }

  /** One more image sent adds its frame at the end of the output. */
  lemma FramesPrefixStep(images: seq<Bytes>, i: nat)
    requires i < |images|
    ensures Frames(images[..i + 1]) == Frames(images[..i]) + Frame(images[i])
  {
    var longer := FrameList(images[..i + 1]);
    assert longer[..i] == FrameList(images[..i]);
  }

  /** The output starts with the first image's frame, followed by the rest's. */
  lemma FramesCons(images: seq<Bytes>)
    requires images != []
    ensures Frames(images) == Frame(images[0]) + Frames(images[1..])
  {
    ConcatCons(FrameList(images));
    assert FrameList(images)[1..] == FrameList(images[1..]);
  }

  /** Reads frames until the stream ends; `None` when something other than a whole frame is left. */
  function ParseFrames(stream: Bytes): (r: Option<seq<Bytes>>)
    decreases |stream|
  {
    if stream == [] then Some([])
    else
      match ParseFrame(stream)
      case None => None
      case Some((payload, rest)) =>
        match ParseFrames(rest)
        case None => None
        case Some(more) => Some([payload] + more)
  }

  /** Reading a generator's whole output gives back every image it sent, in order. */
  lemma {:induction false} FramesRoundTrip(images: seq<Bytes>)
    ensures ParseFrames(Frames(images)) == Some(images)
    decreases |images|
  {
    if images != [] {
      var rest := Frames(images[1..]);
      FramesCons(images);
      FrameRoundTrip(images[0], rest);
      assert ParseFrame(Frames(images)) == Some((images[0], rest));
      FramesRoundTrip(images[1..]);
      assert [images[0]] + images[1..] == images;
    }
  }

  /** The generator's standard output. */
  class OutputStream {

    var written: Bytes

    constructor ()
      ensures written == []
    {
      written := [];
    }

    /** `sys.stdout.buffer.write`. */
    method Write(chunk: Bytes)
      modifies this
      ensures written == old(written) + chunk
    {
      written := written + chunk;
    }

    /** `send_image`: the start line, the length line, the payload and the end line, in four writes. */
    method SendImage(image: Bytes)
      modifies this
      ensures written == old(written) + Frame(image)
    {
      Write(StartMarker);
      Write(LengthLine(|image|));
      Write(image);
      Write(EndMarker);
      assert written == old(written) + (StartMarker + LengthLine(|image|) + image + EndMarker);
    }
  }

  /**
   * The loop of `main`, cut after the images it has generated so far (the
   * 10 s sleeps are not modelled): the output is their frames, in order.
   */
  method EmitFrames(out: OutputStream, images: seq<Bytes>)
    modifies out
    ensures out.written == old(out.written) + Frames(images)
  {
    var i := 0;
    while i < |images|
      invariant 0 <= i <= |images|
      invariant out.written == old(out.written) + Frames(images[..i])
    {
      FramesPrefixStep(images, i);
      out.SendImage(images[i]);
      i := i + 1;
    }
    assert images[..i] == images;
  }
}
