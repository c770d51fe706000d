/**
 * The quarter-turn applied to every resized camera frame before it enters
 * the frame window (`rotateImage90Clockwise` in app/index.tsx).
 *
 * Images are flat, row-major, channel-interleaved: the value of channel `c`
 * of pixel (x, y) of a `width`-wide image sits at `(y * width + x) * channels + c`.
 * The output is `newWidth = height` wide and `newHeight = width` high; its
 * pixel (newX, newY) is copied from the input pixel
 * (x = height - 1 - newY, y = newX). For a square image this turns the picture
 * a quarter turn counter-clockwise (with y growing downwards), whatever the
 * routine's name says; the model keeps the mapping exactly as written.
 */
module Rotation {

  /** Division facts for an index `i` into `rows` rows of `n` entries each. */
  lemma RowOf(i: nat, rows: nat, n: nat)
    requires i < rows * n
    ensures n > 0 && i / n < rows && i % n < n && i == (i / n) * n + i % n
  {
  }

  /** Multiplying by a non-negative factor keeps order. */
  lemma MulMonotone(a: int, b: int, n: nat)
    ensures a <= b ==> a * n <= b * n
  {
    if a <= b {
      assert b * n - a * n == (b - a) * n;
    }
  }

  /** Row and column of `y * n + x` are `y` and `x`. */
  lemma CellOf(x: nat, y: nat, n: nat)
    requires x < n
    ensures (y * n + x) / n == y && (y * n + x) % n == x
  {
    var q, r := (y * n + x) / n, (y * n + x) % n;
    assert q * n + r == y * n + x;
    MulMonotone(y + 1, q, n);
    MulMonotone(q + 1, y, n);
  }

  /** Entry x of row y of `rows` rows of `n` entries lies below rows * n. */
  lemma CellBound(x: nat, y: nat, rows: nat, n: nat)
    requires x < n && y < rows
    ensures y * n + x < rows * n
  {
    assert y * n <= (rows - 1) * n;
  }

  /**
   * The index of the input value that the rotation copies into output slot
   * `k`, computed with the routine's own intermediate quantities. Every such
   * index is inside the input, provided the image is square.
   */
  function SourceSlot(width: nat, height: nat, channels: nat, k: nat): (j: nat)
    requires width == height
    requires k < width * height * channels
    ensures j < width * height * channels
  {
    RowOf(k, width * height, channels);
    var i := k / channels;
    var c := k % channels;
    var newWidth := height;
    RowOf(i, width, newWidth);
    var newX := i % newWidth;
    var newY := i / newWidth;
    var originalX := height - 1 - newY;
    var originalY := newX;
    CellBound(originalX, originalY, height, width);
    CellBound(c, originalY * width + originalX, width * height, channels);
    (originalY * width + originalX) * channels + c
  }

  /** The rotated image: output slot k holds input slot SourceSlot(k). */
  function Rotated<T>(s: seq<T>, width: nat, height: nat, channels: nat): (r: seq<T>)
    requires width == height
    requires |s| == width * height * channels
    ensures |r| == |s|
    ensures forall k :: 0 <= k < |r| ==> r[k] == s[SourceSlot(width, height, channels, k)]
  {
    seq(|s|, k requires 0 <= k < |s| => s[SourceSlot(width, height, channels, k)])
  }

  /** Slot c of output pixel i of an n-by-n image, in terms of the pixel's row and column. */
  lemma SourceSlotOfPixel(n: nat, channels: nat, i: nat, c: nat)
    requires i < n * n && c < channels
    ensures i * channels + c < n * n * channels
    ensures SourceSlot(n, n, channels, i * channels + c) == ((i % n) * n + (n - 1 - i / n)) * channels + c
  {
    CellBound(c, i, n * n, channels);
    CellOf(c, i, channels);
  }

  /** In pixel coordinates: slot c of output pixel (x, y) comes from input pixel (n - 1 - y, x). */
  lemma SourceSlotAt(n: nat, channels: nat, x: nat, y: nat, c: nat)
    requires x < n && y < n && c < channels
    ensures (y * n + x) * channels + c < n * n * channels
    ensures SourceSlot(n, n, channels, (y * n + x) * channels + c) == (x * n + (n - 1 - y)) * channels + c
  {
    CellBound(x, y, n, n);
    CellOf(x, y, n);
    SourceSlotOfPixel(n, channels, y * n + x, c);
  }

  /** Every slot index of an n-by-n image, split into its coordinates. */
  lemma SlotCoordinates(n: nat, channels: nat, k: nat) returns (x: nat, y: nat, c: nat)
    requires k < n * n * channels
    ensures x < n && y < n && c < channels && k == (y * n + x) * channels + c
  {
    RowOf(k, n * n, channels);
    var i := k / channels;
    RowOf(i, n, n);
    x, y, c := i % n, i / n, k % channels;
  }

  /** Four applications of the index mapping lead back to the starting slot. */
  lemma SourceSlotOrbit(n: nat, channels: nat, k: nat)
    requires k < n * n * channels
    ensures var k1 := SourceSlot(n, n, channels, k);
            var k2 := SourceSlot(n, n, channels, k1);
            var k3 := SourceSlot(n, n, channels, k2);
            SourceSlot(n, n, channels, k3) == k
  {
    var x, y, c := SlotCoordinates(n, channels, k);
    SourceSlotAt(n, channels, x, y, c);
    var k1 := (x * n + (n - 1 - y)) * channels + c;
    SourceSlotAt(n, channels, n - 1 - y, x, c);
    var k2 := ((n - 1 - y) * n + (n - 1 - x)) * channels + c;
    SourceSlotAt(n, channels, n - 1 - x, n - 1 - y, c);
    var k3 := ((n - 1 - x) * n + y) * channels + c;
    SourceSlotAt(n, channels, y, n - 1 - x, c);
    assert SourceSlot(n, n, channels, k) == k1;
    assert SourceSlot(n, n, channels, k1) == k2;
    assert SourceSlot(n, n, channels, k2) == k3;
    assert SourceSlot(n, n, channels, k3) == k;
  }

  /**
   * The output slot that input slot `j` is copied to: three more steps along
   * the orbit of the index mapping.
   */
  function InverseSlot(n: nat, channels: nat, j: nat): (k: nat)
    requires j < n * n * channels
    ensures k < n * n * channels
    ensures SourceSlot(n, n, channels, k) == j
  {
    SourceSlotOrbit(n, channels, j);
    SourceSlot(n, n, channels, SourceSlot(n, n, channels, SourceSlot(n, n, channels, j)))
  }

  /**
   * For square images the index mapping is a bijection on the slots:
   * InverseSlot undoes it from both sides, so no two output slots read the
   * same input slot and every input slot is read by exactly one output slot.
   */
  lemma SourceSlotBijective(n: nat, channels: nat, k: nat)
    requires k < n * n * channels
    ensures InverseSlot(n, channels, SourceSlot(n, n, channels, k)) == k
    ensures forall k' :: 0 <= k' < n * n * channels && SourceSlot(n, n, channels, k') == SourceSlot(n, n, channels, k) ==> k' == k
  {
    SourceSlotOrbit(n, channels, k);
    forall k' | 0 <= k' < n * n * channels && SourceSlot(n, n, channels, k') == SourceSlot(n, n, channels, k)
      ensures k' == k
    {
      SourceSlotOrbit(n, channels, k');
    }
  }

  /** Rotating a square image four times gives back the original image. */
  lemma RotateFourTimes<T>(s: seq<T>, n: nat, channels: nat)
    requires |s| == n * n * channels
    ensures Rotated(Rotated(Rotated(Rotated(s, n, n, channels), n, n, channels), n, n, channels), n, n, channels) == s
  {
    var r1 := Rotated(s, n, n, channels);
    var r2 := Rotated(r1, n, n, channels);
    var r3 := Rotated(r2, n, n, channels);
    var r4 := Rotated(r3, n, n, channels);
    forall k | 0 <= k < |s|
      ensures r4[k] == s[k]
    {
      SourceSlotOrbit(n, channels, k);
    }
  }

  /**
   * `rotateImage90Clockwise`: allocates the output and fills it pixel by
   * pixel, channel by channel, in two nested loops.
   */
  method RotateImage90Clockwise<T(0)>(originalData: array<T>, width: nat, height: nat, channels: nat)
    returns (rotatedData: array<T>)
    requires width == height
    requires originalData.Length == width * height * channels
    ensures fresh(rotatedData)
    ensures rotatedData[..] == Rotated(originalData[..], width, height, channels)
  {
    var newWidth := height;
    var newHeight := width;
    rotatedData := new T[newWidth * newHeight * channels];
    var i := 0;
    while i < newWidth * newHeight
      invariant 0 <= i <= newWidth * newHeight
      invariant forall k :: 0 <= k < rotatedData.Length && k < i * channels ==>
                  rotatedData[k] == originalData[SourceSlot(width, height, channels, k)]
    {
      var newX := i % newWidth;
      var newY := i / newWidth;
      var originalX := height - 1 - newY;
      var originalY := newX;
      var originalIndex := (originalY * width + originalX) * channels;
      var rotatedIndex := i * channels;
      var c := 0;
      while c < channels
        invariant 0 <= c <= channels
        invariant forall k :: 0 <= k < rotatedData.Length && k < rotatedIndex + c ==>
                    rotatedData[k] == originalData[SourceSlot(width, height, channels, k)]
      {
        SourceSlotOfPixel(width, channels, i, c);
        rotatedData[rotatedIndex + c] := originalData[originalIndex + c];
        c := c + 1;
      }
      assert rotatedIndex + channels == (i + 1) * channels;
      i := i + 1;
    }
    assert rotatedData.Length == i * channels;
  }
}
