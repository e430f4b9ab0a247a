/** Per-file download progress: for each file of a torrent, how many of its
    bytes lie in pieces that passed the hash check, and the running total of
    those bytes over the files that are not pad files. The vector is
    allocated lazily, the first time the progress is asked for, and from then
    on each piece that passes is counted in once. */
module FileProgress {
  import opened FileLayout

  /** The pieces of `have` that exist in a torrent of `n` pieces. */
  function HaveIn(have: set<nat>, n: nat): (r: set<nat>)
    ensures forall p :: p in r <==> p in have && p < n
  {
    set p | p in have && p < n
  }

  lemma HaveInNext(have: set<nat>, p: nat)
    ensures HaveIn(have, p + 1) == HaveIn(have, p) + (if p in have then {p} else {})
  {
  }

  /** Counting in a piece completed file `f`: it was short of its size
      before and has reached it now. Pad files are never reported. */
  predicate Completes(fs: FileStorage, before: seq<nat>, after: seq<nat>, f: nat)
    requires |before| == |after| == |fs.sizes| == |fs.pad| && f < |fs.sizes|
  {
    !fs.pad[f] && before[f] < fs.sizes[f] && after[f] == fs.sizes[f]
  }

  predicate Increasing(s: seq<nat>) {
    forall i, j :: 0 <= i < j < |s| ==> s[i] < s[j]
  }

  /** The files below `n` that counting in a piece completed, in order. */
  function CompletedBelow(fs: FileStorage, before: seq<nat>, after: seq<nat>, n: nat): seq<nat>
    requires |before| == |after| == |fs.sizes| == |fs.pad| && n <= |fs.sizes|
  {
    if n == 0 then []
    else CompletedBelow(fs, before, after, n - 1) + (if Completes(fs, before, after, n - 1) then [n - 1] else [])
  }

  /** The completed files are listed each once, in increasing order, and
      are exactly the files that counting in the piece completed. */
  lemma {:induction false} CompletedBelowExactly(fs: FileStorage, before: seq<nat>, after: seq<nat>, n: nat)
    requires |before| == |after| == |fs.sizes| == |fs.pad| && n <= |fs.sizes|
    ensures var c := CompletedBelow(fs, before, after, n);
      (forall f: nat :: f in c <==> f < n && Completes(fs, before, after, f))
      && (forall i :: 0 <= i < |c| ==> c[i] < n)
      && Increasing(c)
  {
    if n > 0 {
      CompletedBelowExactly(fs, before, after, n - 1);
    }
  }

  /** Files the piece does not complete add nothing to the list. */
  lemma {:induction false} CompletedBelowStops(fs: FileStorage, before: seq<nat>, after: seq<nat>, f: nat, n: nat)
    requires |before| == |after| == |fs.sizes| == |fs.pad| && f <= n <= |fs.sizes|
    requires forall g :: f <= g < n ==> !Completes(fs, before, after, g)
    ensures CompletedBelow(fs, before, after, n) == CompletedBelow(fs, before, after, f)
    decreases n - f
  {
    if f < n {
      CompletedBelowStops(fs, before, after, f, n - 1);
    }
  }

  class FileProgress {
    /** m_total_on_disk: the bytes downloaded to non-pad files. */
    var totalOnDisk: nat
    /** m_file_progress: bytes of each file that passed the hash check. */
    var fileProgress: seq<nat>
    /** The fields kept only for the invariant check: the pieces counted in
        so far, and the files' sizes and pad flags. */
    ghost var havePieces: set<nat>
    ghost var fileSizes: seq<nat>
    ghost var padFile: seq<bool>

    /** The invariant: once allocated, the vector holds, for each file of
        `fs`, exactly the bytes the counted pieces give it, each piece is a
        piece of the torrent, and the total is the sum over the non-pad
        files. */
    ghost predicate Valid(fs: FileStorage)
      reads this
    {
      WellFormed(fs)
      && (|fileProgress| > 0 ==>
            fileSizes == fs.sizes && padFile == fs.pad
            && (forall p :: p in havePieces ==> p < NumPieces(fs))
            && fileProgress == Progress(fs, havePieces)
            && totalOnDisk == NonPadSum(fileProgress, fs.pad))
    }

    constructor ()
      ensures fileProgress == [] && totalOnDisk == 0
      ensures havePieces == {} && fileSizes == [] && padFile == []
    {
      totalOnDisk := 0;
      fileProgress := [];
      havePieces := {};
      fileSizes := [];
      padFile := [];
    }

    /** empty: the vector has not been allocated (or was cleared). */
    function Empty(): (r: bool)
      reads this
      ensures r <==> |fileProgress| == 0
    {
      |fileProgress| == 0
    }

    /** total_on_disk: the stored total, read without changing anything. */
    function TotalOnDisk(): (r: nat)
      reads this
      ensures r == totalOnDisk
    {
      totalOnDisk
    }

    /** export_progress: a copy of the vector, one entry per file. */
    method ExportProgress() returns (fp: seq<nat>)
      ensures fp == fileProgress
    {
      fp := fileProgress;
    }

    /** clear: frees the vector. The total keeps its value. */
    method Clear()
      modifies this
      ensures fileProgress == [] && totalOnDisk == old(totalOnDisk)
      ensures havePieces == {} && fileSizes == [] && padFile == []
    {
      fileProgress := [];
      havePieces := {};
      fileSizes := [];
      padFile := [];
    }

    /** Adds `add` bytes to file `f`, and to the total unless `f` is a pad
        file; tells whether that made a non-pad file complete. */
    method Raise(fs: FileStorage, f: nat, add: nat) returns (done: bool)
      requires |fileProgress| == |fs.sizes| == |fs.pad| && f < |fs.sizes|
      requires totalOnDisk == NonPadSum(fileProgress, fs.pad)
      modifies this`fileProgress, this`totalOnDisk
      ensures fileProgress == old(fileProgress)[f := old(fileProgress)[f] + add]
      ensures totalOnDisk == NonPadSum(fileProgress, fs.pad)
      ensures done <==> !fs.pad[f] && fileProgress[f] == fs.sizes[f]
    {
      NonPadSumRaise(fileProgress, fs.pad, f, add);
      fileProgress := fileProgress[f := fileProgress[f] + add];
      if !fs.pad[f] {
        totalOnDisk := totalOnDisk + add;
      }
      done := !fs.pad[f] && fileProgress[f] == fs.sizes[f];
    }

    /** Adds the bytes piece `index` holds to each file it spans, walking
        the files from the first on and stopping past the piece's end, and
        reports the files this completes, in file order. */
    method Credit(fs: FileStorage, index: nat) returns (completed: seq<nat>)
      requires WellFormed(fs) && |fileProgress| == |fs.sizes|
      requires totalOnDisk == NonPadSum(fileProgress, fs.pad)
      modifies this`fileProgress, this`totalOnDisk
      ensures fileProgress == Added(old(fileProgress), fs, index)
      ensures totalOnDisk == NonPadSum(fileProgress, fs.pad)
      ensures completed == CompletedBelow(fs, old(fileProgress), fileProgress, |fs.sizes|)
    {
      ghost var before := fileProgress;
      ghost var after := Added(before, fs, index);
      var pieceStart := PieceStart(fs, index);
      var pieceEnd := PieceEnd(fs, index);
      completed := [];
      var f := 0;
      var start := 0;
      while f < |fs.sizes| && start < pieceEnd
        invariant f <= |fs.sizes| && start == Offset(fs, f)
        invariant |fileProgress| == |fs.sizes|
        invariant forall g :: 0 <= g < f ==> fileProgress[g] == after[g]
        invariant forall g :: f <= g < |fs.sizes| ==> fileProgress[g] == before[g]
        invariant totalOnDisk == NonPadSum(fileProgress, fs.pad)
        invariant completed == CompletedBelow(fs, before, after, f)
        decreases |fs.sizes| - f
      {
        var end := start + fs.sizes[f];
        var add := Min(pieceEnd, end) - Max(pieceStart, start);
        assert (if add > 0 then add else 0) == Overlap(fs, index, f);
        assert Completes(fs, before, after, f)
          <==> add > 0 && !fs.pad[f] && fileProgress[f] + add == fs.sizes[f];
        ghost var next := CompletedBelow(fs, before, after, f + 1);
        if add > 0 {
          var done := Raise(fs, f, add);
          if done {
            completed := completed + [f];
          }
        }
        OffsetNext(fs, f);
        start := end;
        f := f + 1;
      }
      if f < |fs.sizes| {
        LaterFilesMissPiece(fs, index, f);
      }
      CompletedBelowStops(fs, before, after, f, |fs.sizes|);
    }

    /** init: allocates the vector, if it is not allocated yet, and counts
        in every piece the picker already has. A torrent without files
        leaves it empty. */
    method Init(have: set<nat>, fs: FileStorage)
      requires Valid(fs)
      modifies this
      ensures Valid(fs)
      ensures old(|fileProgress|) > 0 ==> unchanged(this)
      ensures old(|fileProgress|) == 0 ==>
        havePieces == HaveIn(have, NumPieces(fs)) && fileProgress == Progress(fs, havePieces)
        && fileSizes == fs.sizes && padFile == fs.pad
        && totalOnDisk == NonPadSum(fileProgress, fs.pad)
    {
      if |fileProgress| > 0 {
        return;
      }
      fileSizes := fs.sizes;
      padFile := fs.pad;
      havePieces := {};
      fileProgress := seq(|fs.sizes|, _ => 0);
      totalOnDisk := 0;
      NoPiecesNoProgress(fs);
      NonPadSumZero(|fs.sizes|, fs.pad);
      var p := 0;
      while p < NumPieces(fs)
        invariant p <= NumPieces(fs) && havePieces == HaveIn(have, p)
        invariant fileProgress == Progress(fs, havePieces)
        invariant totalOnDisk == NonPadSum(fileProgress, fs.pad)
        invariant fileSizes == fs.sizes && padFile == fs.pad
        decreases NumPieces(fs) - p
      {
        HaveInNext(have, p);
        if p in have {
          ProgressAddPiece(fs, havePieces, p);
          var _ := Credit(fs, p);
          havePieces := havePieces + {p};
        }
        p := p + 1;
      }
    }

    /** update: piece `index` passed the hash check. Before the vector is
        allocated nothing is tracked. Otherwise the piece, which must not
        have been counted before, is counted in: each file it spans gains
        the bytes it holds, the total gains those of the non-pad files, and
        the files this completes are reported in file order. */
    method Update(fs: FileStorage, index: nat) returns (completed: seq<nat>)
      requires Valid(fs) && index < NumPieces(fs)
      requires |fileProgress| > 0 ==> index !in havePieces
      modifies this
      ensures Valid(fs)
      ensures old(|fileProgress|) == 0 ==> unchanged(this) && completed == []
      ensures old(|fileProgress|) > 0 ==>
        havePieces == old(havePieces) + {index}
        && fileProgress == Added(old(fileProgress), fs, index)
        && (forall f :: f in completed <==>
              0 <= f < |fs.sizes| && Completes(fs, old(fileProgress), fileProgress, f))
        && Increasing(completed)
      ensures forall f :: 0 <= f < |fileProgress| ==> fileProgress[f] <= fs.sizes[f]
    {
      if |fileProgress| == 0 {
        return [];
      }
      ProgressAddPiece(fs, havePieces, index);
      completed := Credit(fs, index);
      CompletedBelowExactly(fs, old(fileProgress), fileProgress, |fs.sizes|);
      havePieces := havePieces + {index};
      ProgressBounded(fs, havePieces);
    }
  }
}
