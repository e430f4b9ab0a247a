/** The part of a torrent's file_storage that per-file progress depends on:
    the files' sizes and pad flags in torrent order, laid end to end, and the
    piece length that cuts that byte range into pieces (the last piece may be
    shorter). Which bytes of which file a piece holds follows from these. */
module FileLayout {

  datatype FileStorage = FileStorage(sizes: seq<nat>, pad: seq<bool>, pieceLength: nat)

  predicate WellFormed(fs: FileStorage) {
    |fs.pad| == |fs.sizes| && fs.pieceLength > 0
  }

  function Sum(s: seq<nat>): nat {
    if s == [] then 0 else Sum(s[..|s| - 1]) + s[|s| - 1]
  }

  function Min(a: int, b: int): int { if a <= b then a else b }
  function Max(a: int, b: int): int { if a <= b then b else a }

  /** Where file `f` starts in the torrent's byte range. */
  function Offset(fs: FileStorage, f: nat): nat
    requires f <= |fs.sizes|
  {
    Sum(fs.sizes[..f])
  }

  function TotalSize(fs: FileStorage): nat {
    Sum(fs.sizes)
  }

  function NumPieces(fs: FileStorage): nat
    requires WellFormed(fs)
  {
    (TotalSize(fs) + fs.pieceLength - 1) / fs.pieceLength
  }

  /** Where piece `p` starts: `p` piece lengths in. */
  function PieceStart(fs: FileStorage, p: nat): nat {
    if p == 0 then 0 else PieceStart(fs, p - 1) + fs.pieceLength
  }

  /** One past the last byte of piece `p`: a full piece length on, or the
      end of the torrent for the last piece. */
  function PieceEnd(fs: FileStorage, p: nat): nat {
    Min(PieceStart(fs, p) + fs.pieceLength, TotalSize(fs))
  }

  /** The number of bytes of file `f` that piece `p` holds. */
  function Overlap(fs: FileStorage, p: nat, f: nat): (n: nat)
    requires f < |fs.sizes|
    ensures n <= fs.sizes[f]
  {
    var lo := Max(PieceStart(fs, p), Offset(fs, f));
    var hi := Min(PieceEnd(fs, p), Offset(fs, f) + fs.sizes[f]);
    if hi > lo then hi - lo else 0
  }

  /** The bytes of file `f` held by the pieces of `have` below `k`. */
  function HaveBytes(fs: FileStorage, have: set<nat>, f: nat, k: nat): nat
    requires f < |fs.sizes|
  {
    if k == 0 then 0
    else HaveBytes(fs, have, f, k - 1) + (if k - 1 in have then Overlap(fs, k - 1, f) else 0)
  }

  /** The progress vector the pieces of `have` give: for each file, the
      number of its bytes that lie in pieces that passed the hash check. */
  function Progress(fs: FileStorage, have: set<nat>): (r: seq<nat>)
    requires WellFormed(fs)
    ensures |r| == |fs.sizes|
  {
    seq(|fs.sizes|, f requires 0 <= f < |fs.sizes| => HaveBytes(fs, have, f, NumPieces(fs)))
  }

  /** A progress vector after piece `p` has been counted in once more. */
  function Added(s: seq<nat>, fs: FileStorage, p: nat): (r: seq<nat>)
    requires |s| == |fs.sizes|
    ensures |r| == |s|
  {
    seq(|s|, f requires 0 <= f < |s| => s[f] + Overlap(fs, p, f))
  }

  /** The sum of the entries of `s` that do not belong to pad files. */
  function NonPadSum(s: seq<nat>, pad: seq<bool>): nat
    requires |s| == |pad|
  {
    if s == [] then 0
    else NonPadSum(s[..|s| - 1], pad[..|pad| - 1]) + (if pad[|pad| - 1] then 0 else s[|s| - 1])
  }

  // ---------------------------------------------------------------------
  // Where the files lie.

  lemma OffsetNext(fs: FileStorage, f: nat)
    requires f < |fs.sizes|
    ensures Offset(fs, f + 1) == Offset(fs, f) + fs.sizes[f]
  {
    assert fs.sizes[..f + 1][..f] == fs.sizes[..f];
  }

  lemma {:induction false} OffsetMonotone(fs: FileStorage, f: nat, g: nat)
    requires f <= g <= |fs.sizes|
    ensures Offset(fs, f) <= Offset(fs, g)
    decreases g - f
  {
    if f < g {
      OffsetMonotone(fs, f, g - 1);
      OffsetNext(fs, g - 1);
    }
  }

  lemma FileWithinTorrent(fs: FileStorage, f: nat)
    requires f < |fs.sizes|
    ensures Offset(fs, f) + fs.sizes[f] <= TotalSize(fs)
  {
    OffsetNext(fs, f);
    OffsetMonotone(fs, f + 1, |fs.sizes|);
    assert fs.sizes[..|fs.sizes|] == fs.sizes;
  }

  /** A piece that ends before file `f` starts holds no byte of any later
      file either. */
  lemma LaterFilesMissPiece(fs: FileStorage, p: nat, f: nat)
    requires f <= |fs.sizes| && PieceEnd(fs, p) <= Offset(fs, f)
    ensures forall g :: f <= g < |fs.sizes| ==> Overlap(fs, p, g) == 0
  {
    forall g | f <= g < |fs.sizes| ensures Overlap(fs, p, g) == 0 {
      OffsetMonotone(fs, f, g);
    }
  }

  // ---------------------------------------------------------------------
  // No file's progress exceeds its size, and a file is complete exactly
  // when every piece holding a byte of it is had.

  /** The bytes of file `f` that lie below piece `k`. */
  function Covered(fs: FileStorage, k: nat, f: nat): nat
    requires f < |fs.sizes|
  {
    var a := Offset(fs, f);
    var c := Min(Min(PieceStart(fs, k), TotalSize(fs)), a + fs.sizes[f]);
    if c > a then c - a else 0
  }

  lemma CoveredStep(fs: FileStorage, k: nat, f: nat)
    requires f < |fs.sizes|
    ensures Covered(fs, k + 1, f) == Covered(fs, k, f) + Overlap(fs, k, f)
  {
  }

  /** The bytes of file `f` in the pieces below `k` that `have` lacks. */
  function MissingBytes(fs: FileStorage, have: set<nat>, f: nat, k: nat): nat
    requires f < |fs.sizes|
  {
    if k == 0 then 0
    else MissingBytes(fs, have, f, k - 1) + (if k - 1 in have then 0 else Overlap(fs, k - 1, f))
  }

  /** The bytes of file `f` in all the pieces below `k`. */
  function PieceBytes(fs: FileStorage, f: nat, k: nat): nat
    requires f < |fs.sizes|
  {
    if k == 0 then 0 else PieceBytes(fs, f, k - 1) + Overlap(fs, k - 1, f)
  }

  /** Summed piece by piece, the pieces below `k` hold exactly the bytes of
      `f` that lie below piece `k`. */
  lemma {:induction false} PieceBytesCovered(fs: FileStorage, f: nat, k: nat)
    requires f < |fs.sizes|
    ensures PieceBytes(fs, f, k) == Covered(fs, k, f)
  {
    if k == 0 {
      CoveredAtZero(fs, f);
    } else {
      PieceBytesCovered(fs, f, k - 1);
      CoveredStep(fs, k - 1, f);
    }
  }

  /** No byte of any file lies below the first piece. */
  lemma CoveredAtZero(fs: FileStorage, f: nat)
    requires f < |fs.sizes|
    ensures Covered(fs, 0, f) == 0
  {
    assert PieceStart(fs, 0) == 0;
  }

  /** Each piece's bytes of `f` count as had or as missing, not both. */
  lemma {:induction false} HaveAndMissingSum(fs: FileStorage, have: set<nat>, f: nat, k: nat)
    requires f < |fs.sizes|
    ensures HaveBytes(fs, have, f, k) + MissingBytes(fs, have, f, k) == PieceBytes(fs, f, k)
  {
    if k > 0 {
      HaveAndMissingSum(fs, have, f, k - 1);
    }
  }

  /** Every byte below piece `k` is either had or missing. */
  lemma HaveAndMissing(fs: FileStorage, have: set<nat>, f: nat, k: nat)
    requires f < |fs.sizes|
    ensures HaveBytes(fs, have, f, k) + MissingBytes(fs, have, f, k) == Covered(fs, k, f)
  {
    HaveAndMissingSum(fs, have, f, k);
    PieceBytesCovered(fs, f, k);
  }

  /** A missing piece that holds bytes of `f` is counted as missing. */
  lemma {:induction false} MissingPieceShows(fs: FileStorage, have: set<nat>, f: nat, k: nat, p: nat)
    requires f < |fs.sizes| && p < k && p !in have
    ensures Overlap(fs, p, f) <= MissingBytes(fs, have, f, k)
  {
    if p < k - 1 {
      MissingPieceShows(fs, have, f, k - 1, p);
    }
  }

  lemma {:induction false} NothingMissing(fs: FileStorage, have: set<nat>, f: nat, k: nat)
    requires f < |fs.sizes|
    requires forall p: nat :: p < k && Overlap(fs, p, f) > 0 ==> p in have
    ensures MissingBytes(fs, have, f, k) == 0
  {
    if k > 0 {
      NothingMissing(fs, have, f, k - 1);
    }
  }

  lemma {:induction false} PieceStartProduct(fs: FileStorage, p: nat)
    ensures PieceStart(fs, p) == p * fs.pieceLength
  {
    if p > 0 {
      PieceStartProduct(fs, p - 1);
      assert p * fs.pieceLength == (p - 1) * fs.pieceLength + fs.pieceLength;
    }
  }

  /** The pieces reach past the last byte of the torrent. */
  lemma PiecesCoverTorrent(fs: FileStorage)
    requires WellFormed(fs)
    ensures PieceStart(fs, NumPieces(fs)) >= TotalSize(fs)
  {
    var t := TotalSize(fs) + fs.pieceLength - 1;
    PieceStartProduct(fs, NumPieces(fs));
    assert t == (t / fs.pieceLength) * fs.pieceLength + t % fs.pieceLength;
  }

  /** The progress of a file never exceeds its size. */
  lemma ProgressBounded(fs: FileStorage, have: set<nat>)
    requires WellFormed(fs)
    ensures forall f :: 0 <= f < |fs.sizes| ==> Progress(fs, have)[f] <= fs.sizes[f]
  {
    forall f | 0 <= f < |fs.sizes| ensures Progress(fs, have)[f] <= fs.sizes[f] {
      HaveAndMissing(fs, have, f, NumPieces(fs));
    }
  }

  /** A file's progress reaches its size exactly when every piece holding a
      byte of it has been had. */
  lemma CompleteIffAllPieces(fs: FileStorage, have: set<nat>, f: nat)
    requires WellFormed(fs) && f < |fs.sizes|
    ensures Progress(fs, have)[f] == fs.sizes[f]
        <==> forall p: nat :: p < NumPieces(fs) && Overlap(fs, p, f) > 0 ==> p in have
  {
    var n := NumPieces(fs);
    PiecesCoverTorrent(fs);
    FileWithinTorrent(fs, f);
    assert Covered(fs, n, f) == fs.sizes[f];
    HaveAndMissing(fs, have, f, n);
    if Progress(fs, have)[f] == fs.sizes[f] {
      forall p: nat | p < n && Overlap(fs, p, f) > 0 ensures p in have {
        if p !in have {
          MissingPieceShows(fs, have, f, n, p);
        }
      }
    } else if forall p: nat :: p < n && Overlap(fs, p, f) > 0 ==> p in have {
      NothingMissing(fs, have, f, n);
    }
  }

  // ---------------------------------------------------------------------
  // Counting in one more piece.

  lemma {:induction false} HaveBytesAdd(fs: FileStorage, have: set<nat>, f: nat, k: nat, p: nat)
    requires f < |fs.sizes| && p !in have
    ensures HaveBytes(fs, have + {p}, f, k)
         == HaveBytes(fs, have, f, k) + (if p < k then Overlap(fs, p, f) else 0)
  {
    if k > 0 {
      HaveBytesAdd(fs, have, f, k - 1, p);
    }
  }

  /** Counting in a piece not had before adds its bytes of each file, and
      nothing else. */
  lemma ProgressAddPiece(fs: FileStorage, have: set<nat>, p: nat)
    requires WellFormed(fs) && p !in have && p < NumPieces(fs)
    ensures Progress(fs, have + {p}) == Added(Progress(fs, have), fs, p)
  {
    forall f | 0 <= f < |fs.sizes|
      ensures Progress(fs, have + {p})[f] == Added(Progress(fs, have), fs, p)[f]
    {
      HaveBytesAdd(fs, have, f, NumPieces(fs), p);
    }
  }

  lemma {:induction false} NoPiecesNoBytes(fs: FileStorage, f: nat, k: nat)
    requires f < |fs.sizes|
    ensures HaveBytes(fs, {}, f, k) == 0
  {
    if k > 0 {
      NoPiecesNoBytes(fs, f, k - 1);
    }
  }

  /** Before any piece is had, every file is at zero. */
  lemma NoPiecesNoProgress(fs: FileStorage)
    requires WellFormed(fs)
    ensures Progress(fs, {}) == seq(|fs.sizes|, _ => 0)
  {
    forall f | 0 <= f < |fs.sizes| ensures Progress(fs, {})[f] == 0 {
      NoPiecesNoBytes(fs, f, NumPieces(fs));
    }
  }

  // ---------------------------------------------------------------------
  // The running total.

  /** Raising one entry raises the non-pad total by as much, unless the entry
      is a pad file's. */
  lemma {:induction false} NonPadSumRaise(s: seq<nat>, pad: seq<bool>, f: nat, d: nat)
    requires |s| == |pad| && f < |s|
    ensures NonPadSum(s[f := s[f] + d], pad) == NonPadSum(s, pad) + (if pad[f] then 0 else d)
  {
    var n := |s| - 1;
    var t := s[f := s[f] + d];
    assert t[..n] == if f < n then s[..n][f := s[f] + d] else s[..n];
    if f < n {
      NonPadSumRaise(s[..n], pad[..n], f, d);
    }
  }

  lemma {:induction false} NonPadSumMonotone(s: seq<nat>, t: seq<nat>, pad: seq<bool>)
    requires |s| == |t| == |pad|
    requires forall f :: 0 <= f < |s| ==> s[f] <= t[f]
    ensures NonPadSum(s, pad) <= NonPadSum(t, pad)
  {
    if s != [] {
      var n := |s| - 1;
      NonPadSumMonotone(s[..n], t[..n], pad[..n]);
    }
  }

  lemma {:induction false} NonPadSumZero(n: nat, pad: seq<bool>)
    requires |pad| == n
    ensures NonPadSum(seq(n, _ => 0), pad) == 0
  {
    if n > 0 {
      assert seq(n, _ => 0)[..n - 1] == seq(n - 1, _ => 0);
      NonPadSumZero(n - 1, pad[..n - 1]);
    }
  }

  /** The bytes on disk never exceed the total size of the non-pad files. */
  lemma OnDiskBounded(fs: FileStorage, have: set<nat>)
    requires WellFormed(fs)
    ensures NonPadSum(Progress(fs, have), fs.pad) <= NonPadSum(fs.sizes, fs.pad)
  {
    ProgressBounded(fs, have);
    NonPadSumMonotone(Progress(fs, have), fs.sizes, fs.pad);
  }
}
