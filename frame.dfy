/**
 * The frame painter `draw` of `src/main.rs`: it walks an RGBA frame buffer in
 * whole 4-byte chunks and paints chunk k from cell `vmem[k / 64][k % 64]`,
 * opaque white for a cell holding 1 and opaque black for any other value.
 */
module Frame {
  import opened Primitives

  /** Cells per row of the video grid (the `WIDTH` constant). */
  const Width: nat := 64
  const White: seq<u8> := [0xFF, 0xFF, 0xFF, 0xFF]
  const Black: seq<u8> := [0x00, 0x00, 0x00, 0xFF]

  /** Chunk k has a cell to read: row k / 64 exists and has a column k % 64. */
  predicate InGrid(vmem: seq<seq<u8>>, k: nat) {
    k / 64 < |vmem| && k % 64 < |vmem[k / 64]|
  }

  /**
   * Every one of the first n chunks has a cell to read; otherwise `draw` panics.
   * Stated chunk by chunk; CoversIff gives the quantified form.
   */
  predicate Covers(vmem: seq<seq<u8>>, n: nat) {
    n == 0 || (Covers(vmem, n - 1) && InGrid(vmem, n - 1))
  }

  /** Covers says exactly that every chunk below n has a cell. */
  lemma {:induction false} CoversIff(vmem: seq<seq<u8>>, n: nat)
    ensures Covers(vmem, n) <==> forall k: nat :: k < n ==> InGrid(vmem, k)
  {
    if n > 0 {
      CoversIff(vmem, n - 1);
    }
  }

  /** Any chunk below a covered count has a cell. */
  lemma {:induction false} CoversAt(vmem: seq<seq<u8>>, n: nat, k: nat)
    requires Covers(vmem, n) && k < n
    ensures InGrid(vmem, k)
  {
    if k < n - 1 {
      CoversAt(vmem, n - 1, k);
    }
  }

  /** The colour chunk k receives. */
  function Colour(vmem: seq<seq<u8>>, k: nat): seq<u8>
    requires InGrid(vmem, k)
  {
    if vmem[k / 64][k % 64] == 1 then White else Black
  }

  /** The bytes of the first n chunks once painted, chunk after chunk. */
  function Pixels(vmem: seq<seq<u8>>, n: nat): (r: seq<u8>)
    requires Covers(vmem, n)
    ensures |r| == 4 * n
  {
    if n == 0 then [] else Pixels(vmem, n - 1) + Colour(vmem, n - 1)
  }

  /** The whole frame after `draw`: the painted chunks, then the remainder as it was. */
  function Rendered(frame: seq<u8>, vmem: seq<seq<u8>>): (r: seq<u8>)
    requires Covers(vmem, |frame| / 4)
    ensures |r| == |frame|
    ensures forall t :: 4 * (|frame| / 4) <= t < |frame| ==> r[t] == frame[t]
  {
    Pixels(vmem, |frame| / 4) + frame[4 * (|frame| / 4)..]
  }

  /** Byte j of chunk k of the painted bytes is byte j of that chunk's colour. */
  lemma {:induction false} PixelsAt(vmem: seq<seq<u8>>, n: nat, k: nat, j: nat)
    requires Covers(vmem, n) && k < n && j < 4
    ensures InGrid(vmem, k)
    ensures Pixels(vmem, n)[4 * k + j] == Colour(vmem, k)[j]
  {
    if k < n - 1 {
      PixelsAt(vmem, n - 1, k, j);
    }
  }

  /** Chunk k of the rendered frame is exactly the colour of its cell. */
  lemma DrawChunk(frame: seq<u8>, vmem: seq<seq<u8>>, k: nat)
    requires Covers(vmem, |frame| / 4) && k < |frame| / 4
    ensures InGrid(vmem, k) && 4 * k + 4 <= |frame|
    ensures Rendered(frame, vmem)[4 * k..4 * k + 4] ==
            if vmem[k / 64][k % 64] == 1 then White else Black
  {
    CoversAt(vmem, |frame| / 4, k);
    var r := Rendered(frame, vmem);
    forall j | 0 <= j < 4
      ensures r[4 * k + j] == Colour(vmem, k)[j]
    {
      PixelsAt(vmem, |frame| / 4, k, j);
    }
    assert r[4 * k..4 * k + 4] == Colour(vmem, k);
  }

  /** A chunk whose cell holds 1 is opaque white. */
  lemma DrawLit(frame: seq<u8>, vmem: seq<seq<u8>>, k: nat)
    requires Covers(vmem, |frame| / 4) && k < |frame| / 4
    requires k / 64 < |vmem| && k % 64 < |vmem[k / 64]| && vmem[k / 64][k % 64] == 1
    ensures Rendered(frame, vmem)[4 * k..4 * k + 4] == [0xFF, 0xFF, 0xFF, 0xFF]
  {
    DrawChunk(frame, vmem, k);
  }

  /** A chunk whose cell holds anything but 1 (not only 0) is opaque black. */
  lemma DrawUnlit(frame: seq<u8>, vmem: seq<seq<u8>>, k: nat)
    requires Covers(vmem, |frame| / 4) && k < |frame| / 4
    requires k / 64 < |vmem| && k % 64 < |vmem[k / 64]| && vmem[k / 64][k % 64] != 1
    ensures Rendered(frame, vmem)[4 * k..4 * k + 4] == [0x00, 0x00, 0x00, 0xFF]
  {
    DrawChunk(frame, vmem, k);
  }

  /** Every painted chunk has alpha 0xFF. */
  lemma DrawOpaque(frame: seq<u8>, vmem: seq<seq<u8>>, k: nat)
    requires Covers(vmem, |frame| / 4) && k < |frame| / 4
    ensures Rendered(frame, vmem)[4 * k + 3] == 0xFF
  {
    PixelsAt(vmem, |frame| / 4, k, 3);
  }

  /** The painted chunks depend only on `vmem`, not on what the frame held before. */
  lemma DrawIgnoresPrior(f: seq<u8>, g: seq<u8>, vmem: seq<seq<u8>>, t: nat)
    requires |f| == |g| && Covers(vmem, |f| / 4) && t < 4 * (|f| / 4)
    ensures Rendered(f, vmem)[t] == Rendered(g, vmem)[t]
  {
  }

  /** The 32 rows of 64 cells the emulator keeps cover the 2048 chunks of its 64-by-32 frame. */
  lemma {:induction false} FullGridCovers(vmem: seq<seq<u8>>)
    requires |vmem| == 32 && forall row :: 0 <= row < |vmem| ==> |vmem[row]| == Width
    ensures Covers(vmem, 32 * Width)
  {
    forall k: nat | k < 32 * Width
      ensures InGrid(vmem, k)
    {
      assert k / 64 < 32;
    }
    CoversIff(vmem, 32 * Width);
  }

  /** Paints `frame` in place from `vmem`, one whole 4-byte chunk at a time. */
  method Draw(frame: array<u8>, vmem: seq<seq<u8>>)
    requires Covers(vmem, frame.Length / 4)
    modifies frame
    ensures frame[..] == Rendered(old(frame[..]), vmem)
  {
    var n := frame.Length / 4;
    ghost var target := Pixels(vmem, n);
    var k := 0;
    while k < n
      invariant 0 <= k <= n
      invariant forall t :: 0 <= t < 4 * k ==> frame[t] == target[t]
      invariant forall t :: 4 * k <= t < frame.Length ==> frame[t] == old(frame[t])
    {
      CoversAt(vmem, n, k);
      PaintChunk(frame, vmem, k);
      forall t | 4 * k <= t < 4 * k + 4
        ensures target[t] == Colour(vmem, k)[t - 4 * k]
      {
        PixelsAt(vmem, n, k, t - 4 * k);
      }
      k := k + 1;
    }
    assert frame[..] == target + old(frame[..])[4 * n..];
  }

  /** One step of the loop: look up the cell of chunk k and `copy_from_slice` its colour in. */
  method PaintChunk(frame: array<u8>, vmem: seq<seq<u8>>, k: nat)
    requires InGrid(vmem, k) && 4 * k + 4 <= frame.Length
    modifies frame
    ensures forall t :: 4 * k <= t < 4 * k + 4 ==> frame[t] == Colour(vmem, k)[t - 4 * k]
    ensures forall t :: 0 <= t < frame.Length && (t < 4 * k || 4 * k + 4 <= t) ==> frame[t] == old(frame[t])
  {
    var x, y := k / 64, k % 64;
    var rgba := if vmem[x][y] == 1 then White else Black;
    frame[4 * k], frame[4 * k + 1], frame[4 * k + 2], frame[4 * k + 3] := rgba[0], rgba[1], rgba[2], rgba[3];
  }
}
