/**
 The normaliser of script.js's preprocessImage: after the browser has
 resampled the drawing into a 28x28 RGBA buffer, each pixel's red sample is
 inverted and scaled into [0, 1], and the 784 values are wrapped as a
 tensor of shape [1, 28, 28, 1].

 Samples are exact integers and the outputs exact reals; the source stores
 them as 32-bit floats.
 */
module Pixels {
  import Tensor

  /** One 8-bit colour sample of a canvas ImageData buffer. */
  type Byte = x: int | 0 <= x < 256

  /** Side of the square image the classifier reads. */
  const Side: nat := 28
  const PixelCount: nat := Side * Side
  /** Samples per pixel in ImageData: red, green, blue, alpha. */
  const Channels: nat := 4
  const BufferLength: nat := PixelCount * Channels

  /** Shape of the classifier's input: one image, 28 rows, 28 columns, one channel. */
  const InputShape: Tensor.Shape4 := Tensor.Shape4(1, Side, Side, 1)

  /** The red sample of pixel `i`: the first byte of its four. */
  function Red(data: seq<Byte>, i: nat): Byte
    requires |data| == BufferLength && i < PixelCount
  {
    data[Channels * i]
  }

  /** Inverts a sample and scales it: white (255) becomes 0, black ink (0) becomes 1. */
  function Normalize(p: Byte): (v: real)
    ensures 0.0 <= v <= 1.0
    ensures v == 0.0 <==> p == 255
    ensures v == 1.0 <==> p == 0
  {
    (255 - p) as real / 255.0
  }

  /** Reads a sample back from its normalised value. */
  function Denormalize(v: real): int {
    255 - (v * 255.0).Floor
  }

  /** The normaliser loses nothing: every sample is recovered from its value. */
  lemma DenormalizeNormalize(p: Byte)
    ensures Denormalize(Normalize(p)) == p
  {
    assert Normalize(p) * 255.0 == (255 - p) as real;
  }

  /** Darker samples give strictly larger values, so the normaliser preserves the ink order reversed. */
  lemma NormalizeAntitone(p: Byte, q: Byte)
    ensures p < q <==> Normalize(p) > Normalize(q)
  {
  }

  /** The flat, row-major input the classifier receives: value `i` comes from pixel `i`'s red sample. */
  function Normalized(data: seq<Byte>): (input: seq<real>)
    requires |data| == BufferLength
    ensures |input| == PixelCount
    ensures forall i :: 0 <= i < PixelCount ==> 0.0 <= input[i] <= 1.0
  {
    seq(PixelCount, i requires 0 <= i < PixelCount => Normalize(Red(data, i)))
  }

  /** True iff two buffers agree on every pixel's red sample. */
  predicate SameRed(a: seq<Byte>, b: seq<Byte>)
    requires |a| == BufferLength && |b| == BufferLength
  {
    forall i :: 0 <= i < PixelCount ==> Red(a, i) == Red(b, i)
  }

  /** Green, blue and alpha are never read: the input depends on the red samples alone, and on all of them. */
  lemma OnlyRedIsRead(a: seq<Byte>, b: seq<Byte>)
    requires |a| == BufferLength && |b| == BufferLength
    ensures Normalized(a) == Normalized(b) <==> SameRed(a, b)
  {
    if Normalized(a) == Normalized(b) {
      forall i | 0 <= i < PixelCount
        ensures Red(a, i) == Red(b, i)
      {
        DenormalizeNormalize(Red(a, i));
        DenormalizeNormalize(Red(b, i));
        assert Normalized(a)[i] == Normalized(b)[i];
      }
    }
  }

  /** True iff every pixel of the buffer is white in its red sample. */
  predicate AllWhite(data: seq<Byte>)
    requires |data| == BufferLength
  {
    forall i :: 0 <= i < PixelCount ==> Red(data, i) == 255
  }

  /** A blank drawing (the white fill untouched) gives the all-zero input, and only a blank one does. */
  lemma BlankIffAllZero(data: seq<Byte>)
    requires |data| == BufferLength
    ensures AllWhite(data) <==> Normalized(data) == seq(PixelCount, _ => 0.0)
  {
    var zeros := seq(PixelCount, _ => 0.0);
    if AllWhite(data) {
      assert forall i :: 0 <= i < PixelCount ==> Normalized(data)[i] == zeros[i];
    }
    if Normalized(data) == zeros {
      forall i | 0 <= i < PixelCount
        ensures Red(data, i) == 255
      {
        assert Normalized(data)[i] == zeros[i];
      }
    }
  }

  /**
   The reshape to [1, 28, 28, 1] keeps values and order: element (0, r, c, 0)
   is flat value r * 28 + c, and flat value k sits at row k / 28, column k % 28.
   */
  lemma InputLayout(values: seq<real>)
    requires |values| == PixelCount
    ensures forall r, c :: 0 <= r < Side && 0 <= c < Side ==>
      Tensor.At(Tensor.Tensor4d(values, InputShape), 0, r, c, 0) == values[r * Side + c]
    ensures forall k :: 0 <= k < PixelCount ==>
      Tensor.At(Tensor.Tensor4d(values, InputShape), 0, k / Side, k % Side, 0) == values[k]
  {
    var t := Tensor.Tensor4d(values, InputShape);
    forall r, c | 0 <= r < Side && 0 <= c < Side
      ensures Tensor.At(t, 0, r, c, 0) == values[r * Side + c]
    {
      assert Tensor.Offset(InputShape, 0, r, c, 0) == r * Side + c;
    }
    forall k | 0 <= k < PixelCount
      ensures Tensor.At(t, 0, k / Side, k % Side, 0) == values[k]
    {
      assert Tensor.Offset(InputShape, 0, k / Side, k % Side, 0) == (k / Side) * Side + k % Side == k;
    }
  }

  /** The tensor handed to the classifier: shape [1, 28, 28, 1], every value in [0, 1]. */
  function InputTensor(data: seq<Byte>): (t: Tensor.Tensor4)
    requires |data| == BufferLength
    ensures Tensor.WellFormed(t) && t.shape == InputShape
    ensures forall k :: 0 <= k < |t.data| ==> 0.0 <= t.data[k] <= 1.0
  {
    Tensor.Tensor4d(Normalized(data), InputShape)
  }

  /**
   preprocessImage from the resampled buffer on: the loop over the 784
   pixels filling a float buffer, then the wrap as a [1, 28, 28, 1] tensor.
   */
  method Preprocess(data: seq<Byte>) returns (t: Tensor.Tensor4)
    requires |data| == BufferLength
    ensures t == InputTensor(data)
    ensures forall r, c :: 0 <= r < Side && 0 <= c < Side ==>
      Tensor.At(t, 0, r, c, 0) == Normalize(Red(data, r * Side + c))
  {
    var input := new real[PixelCount];
    var i := 0;
    while i < PixelCount
      invariant 0 <= i <= PixelCount
      invariant forall k :: 0 <= k < i ==> input[k] == Normalize(Red(data, k))
    {
      var pixel := data[i * Channels];
      input[i] := (255 - pixel) as real / 255.0;
      i := i + 1;
    }
    assert input[..] == Normalized(data);
    t := Tensor.Tensor4d(input[..], InputShape);
    InputLayout(input[..]);
  }
}
