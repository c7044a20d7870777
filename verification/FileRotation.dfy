/** Rotation of a file target's log files: name.1 is the newest rotated file. */
module FileRotation {
  import opened Basics

  const MAX_ROTATED_FILES: nat := 10

  /** Files by rotation number; the file being written has none. */
  type Files = map<nat, string>

  /** strRotateName gives a name. */
  predicate HasName(n: nat) { 0 < n < MAX_ROTATED_FILES }

  /** k, k - 1, ..., 1: the recorded list, oldest first. */
  function Down(k: nat): seq<nat> {
    if k == 0 then [] else [k] + Down(k - 1)
  }

  function Up(n: nat): seq<nat> {
    if n == 0 then [] else Up(n - 1) + [n]
  }

  function Reversed(s: seq<nat>): seq<nat> {
    if s == [] then [] else [s[|s| - 1]] + Reversed(s[..|s| - 1])
  }

  lemma {:induction false} DownIsUpReversed(k: nat)
    ensures Reversed(Up(k)) == Down(k) && |Down(k)| == k && |Up(k)| == k
  {
    if k > 0 {
      DownIsUpReversed(k - 1);
      assert Up(k)[..k - 1] == Up(k - 1);
    }
  }

  function CurrentSize(current: Option<string>): nat {
    if current.Some? then |current.value| else 0
  }

  /** Bytes in the rotated files 1 to k. */
  function TotalSize(files: Files, k: nat): nat {
    if k == 0 then 0 else TotalSize(files, k - 1) + if k in files then |files[k]| else 0
  }

  lemma SizeStart(files: Files)
    ensures TotalSize(files, 0) == 0
  {
  }

  lemma SizeNext(files: Files, n: nat)
    requires n > 0 && n in files
    ensures TotalSize(files, n) == TotalSize(files, n - 1) + |files[n]|
  {
  }

  lemma UpStep()
    ensures Up(0) == [] && forall n: nat :: Up(n + 1) == Up(n) + [n + 1]
  {
  }

  /** The rotated files on disk are exactly 1 to k. */
  ghost predicate Contiguous(files: Files, k: nat) {
    forall i :: i in files <==> 1 <= i <= k
  }

  /** How many of k rotated files survive, shifted by one. */
  function Survivors(k: nat, maxFiles: nat): nat {
    if maxFiles != 0 && k + 1 > maxFiles then maxFiles - 1 else k
  }

  /** The oldest file would have to take a number that has no name. */
  predicate OutOfNames(k: nat, maxFiles: nat) {
    k == 9 && (maxFiles == 0 || maxFiles >= 10)
  }

  /** Files 1 to p as they were, and the survivors above p shifted by one. */
  ghost predicate Shifted(before: Files, files: Files, p: nat, survivors: nat) {
    && (forall i :: i in files <==> 1 <= i <= p || p + 1 < i <= survivors + 1)
    && (forall i :: 1 <= i <= p && i in before ==> files[i] == before[i])
    && (forall i :: p < i <= survivors && i in before ==> files[i + 1] == before[i])
  }

  /** The recorded list after the files above p have been dealt with. */
  ghost function Renamed(survivors: nat, p: nat): seq<nat>
    decreases survivors
  {
    if survivors <= p then [] else [survivors + 1] + Renamed(survivors - 1, p)
  }

  lemma {:induction false} RenamedStep(survivors: nat, p: nat)
    requires 0 < p <= survivors
    ensures Renamed(survivors, p - 1) == Renamed(survivors, p) + [p + 1]
  {
    if survivors > p { RenamedStep(survivors - 1, p); }
  }

  lemma {:induction false} RenamedAll(survivors: nat)
    ensures Renamed(survivors, 0) + [1] == Down(survivors + 1)
  {
    if survivors > 0 {
      RenamedAll(survivors - 1);
      assert Renamed(survivors, 0) + [1] == [survivors + 1] + (Renamed(survivors - 1, 0) + [1]);
    }
  }

  class FileTarget {
    const maxFiles: nat
    var files: Files
    var current: Option<string>
    var rotatedFiles: seq<nat>

    constructor (maxFiles: nat, files: Files, current: Option<string>)
      ensures this.maxFiles == maxFiles && this.files == files && this.current == current && rotatedFiles == []
    {
      this.maxFiles, this.files, this.current, rotatedFiles := maxFiles, files, current, [];
    }

    /** check_files: the list becomes the longest unbroken range of numbers on disk from 1, oldest
        first, as far as names go. A rotation is due when the current file is over its own limit, or all
        these files together are over theirs, even where that limit is 0. */
    method CheckFiles(maxFileSize: nat, maxTotalSize: nat) returns (k: nat, needsRotation: bool)
      modifies this`rotatedFiles
      ensures rotatedFiles == Down(k) && k < MAX_ROTATED_FILES && forall i :: 1 <= i <= k ==> i in files
      ensures !HasName(k + 1) || k + 1 !in files
      ensures forall m: nat :: Contiguous(files, m) && m < MAX_ROTATED_FILES ==> k == m
      ensures needsRotation <==>
              || (current.Some? && 0 < maxFileSize < |current.value|)
              || CurrentSize(current) + TotalSize(files, k) > maxTotalSize
    {
      hide Contiguous, Reversed, Down, Up, TotalSize;
      needsRotation := false;
      var allFilesSize := 0;
      if current.Some? {
        if maxFileSize != 0 && maxFileSize < |current.value| { needsRotation := true; }
        allFilesSize := |current.value|;
      }
      var found, n := [], 1;
      UpStep();
      SizeStart(files);
      while true
        invariant 1 <= n <= MAX_ROTATED_FILES && found == Up(n - 1) && forall i :: 1 <= i < n ==> i in files
        invariant allFilesSize == CurrentSize(current) + TotalSize(files, n - 1)
        decreases MAX_ROTATED_FILES - n
      {
        if !HasName(n) { break; }
        if n !in files { break; }
        found := found + [n];
        SizeNext(files, n);
        allFilesSize := allFilesSize + |files[n]|;
        n := n + 1;
      }
      k := n - 1;
      DownIsUpReversed(k);
      rotatedFiles := Reversed(found);
      if allFilesSize > maxTotalSize { needsRotation := true; }
      forall m: nat | Contiguous(files, m) && m < MAX_ROTATED_FILES ensures k == m {
        LastNumber(files, m, k);
      }
    }

    /** rotate_files, with k rotated files recorded and on disk. It runs out of names exactly when
        there is a ninth file to move up. Otherwise no rename hits an existing file, every survivor
        moves up by one and the current file, if there is one, becomes number 1. */
    method RotateFiles(ghost k: nat) returns (badName: bool, clobbered: bool)
      requires Contiguous(files, k) && rotatedFiles == Down(k) && k < MAX_ROTATED_FILES
      modifies this
      ensures badName <==> OutOfNames(k, maxFiles)
      ensures !clobbered
      ensures !badName ==> forall i :: 1 <= i <= Survivors(k, maxFiles) ==>
              i + 1 in files && files[i + 1] == old(files)[i]
      ensures !badName && old(current).Some? ==>
                && current == None && Contiguous(files, Survivors(k, maxFiles) + 1) && files[1] == old(current).value
                && rotatedFiles == Down(Survivors(k, maxFiles) + 1)
      ensures !badName && old(current).None? ==>
                && (forall i :: i in files <==> 2 <= i <= Survivors(k, maxFiles) + 1)
                && rotatedFiles == Renamed(Survivors(k, maxFiles), 0)
      ensures !badName && maxFiles != 0 ==> |rotatedFiles| <= maxFiles
    {
      hide Renamed, Shifted, Down;
      badName, clobbered := false, false;
      ghost var before, survivors := files, Survivors(k, maxFiles);
      var temp, n := [], |rotatedFiles|;
      DownIsUpReversed(k);
      ShiftStart(files, k, maxFiles);
      while rotatedFiles != []
        invariant 0 <= n <= k && rotatedFiles == Down(n) && !clobbered && !badName
        invariant (n < k ==> !OutOfNames(k, maxFiles))
        invariant Shifted(before, files, n, survivors) && temp == Renamed(survivors, n) && current == old(current)
        decreases n
      {
        DownHead(n);
        var num := rotatedFiles[0];
        rotatedFiles := rotatedFiles[1..];
        ShiftStep(before, files, num, k, maxFiles);
        if maxFiles != 0 && n + 1 > maxFiles {
          files := files - {num};
        } else {
          if !HasName(num + 1) {
            badName := true;
            return;
          }
          if num + 1 in files { clobbered := true; }
          files := (files - {num})[num + 1 := files[num]];
          temp := temp + [num + 1];
        }
        n := n - 1;
      }
      DownIsUpReversed(n);
      assert n == 0;
      RenamedAll(survivors);
      RenamedSize(survivors);
      ShiftDone(before, files, survivors);
      if current.Some? {
        if 1 in files { clobbered := true; }
        files := files[1 := current.value];
        current := None;
        temp := temp + [1];
      }
      rotatedFiles := temp;
    }

    /** Rotation after rotation, each of a current file with the next text, from any k files recorded
        and on disk: the files kept are the newest texts, newest first, as many as the limit allows. */
    method RotateMany(texts: seq<string>, ghost k: nat)
      requires 1 <= maxFiles < MAX_ROTATED_FILES && k < MAX_ROTATED_FILES
      requires Contiguous(files, k) && rotatedFiles == Down(k)
      modifies this
      ensures var now := AfterAll(old(Listing(files, k)), texts, maxFiles);
              Contiguous(files, |now|) && Listing(files, |now|) == now && rotatedFiles == Down(|now|)
    {
      hide Renamed;
      ghost var first := Listing(files, k);
      var n := 0;
      assert texts[..0] == [];
      while n < |texts|
        invariant 0 <= n <= |texts| && |AfterAll(first, texts[..n], maxFiles)| < MAX_ROTATED_FILES
        invariant Contiguous(files, |AfterAll(first, texts[..n], maxFiles)|)
        invariant Listing(files, |AfterAll(first, texts[..n], maxFiles)|) == AfterAll(first, texts[..n], maxFiles)
        invariant rotatedFiles == Down(|AfterAll(first, texts[..n], maxFiles)|)
      {
        ghost var before, j := files, |AfterAll(first, texts[..n], maxFiles)|;
        current := Some(texts[n]);
        var badName, clobbered := RotateFiles(j);
        assert texts[..n + 1][..n] == texts[..n];
        ListingStep(before, files, j, texts[n], maxFiles);
        n := n + 1;
      }
      assert texts[..n] == texts;
    }
  }

  /** The rotated files as a sequence, newest first. */
  ghost function Listing(files: Files, k: nat): seq<string>
    requires Contiguous(files, k)
  {
    seq(k, i requires 0 <= i < k => files[i + 1])
  }

  /** What one rotation makes of the listing. */
  function RotatedListing(listing: seq<string>, current: string, maxFiles: nat): seq<string> {
    var keep := Survivors(|listing|, maxFiles);
    [current] + if keep <= |listing| then listing[..keep] else listing
  }

  function AfterAll(first: seq<string>, texts: seq<string>, maxFiles: nat): seq<string> {
    if texts == [] then first
    else RotatedListing(AfterAll(first, texts[..|texts| - 1], maxFiles), texts[|texts| - 1], maxFiles)
  }

  function NewestFirst(texts: seq<string>): seq<string> {
    if texts == [] then [] else [texts[|texts| - 1]] + NewestFirst(texts[..|texts| - 1])
  }

  lemma ListingStep(before: Files, files: Files, k: nat, current: string, maxFiles: nat)
    requires Contiguous(before, k) && Contiguous(files, Survivors(k, maxFiles) + 1) && files[1] == current
    requires forall i :: 1 <= i <= Survivors(k, maxFiles) ==> i in before && files[i + 1] == before[i]
    ensures Listing(files, Survivors(k, maxFiles) + 1) == RotatedListing(Listing(before, k), current, maxFiles)
  {
    var now, was := Listing(files, Survivors(k, maxFiles) + 1), Listing(before, k);
    forall i | 0 <= i < |now| ensures now[i] == RotatedListing(was, current, maxFiles)[i] {
      if i > 0 { assert files[i + 1] == before[i]; }
    }
  }

  function FirstFew(xs: seq<string>, n: nat): seq<string> {
    if |xs| <= n then xs else xs[..n]
  }

  /** After one rotation or more, exactly the newest texts are kept, newest first, up to the limit: those
      rotated and then, while there is room, those that were there before. */
  lemma {:induction false} KeptNewest(first: seq<string>, texts: seq<string>, maxFiles: nat)
    requires maxFiles >= 1 && texts != []
    ensures AfterAll(first, texts, maxFiles) == FirstFew(NewestFirst(texts) + first, maxFiles)
  {
    hide FirstFew, RotatedListing, NewestFirst;
    NewestStep(texts, first);
    var front, last := texts[..|texts| - 1], texts[|texts| - 1];
    var before := AfterAll(first, front, maxFiles);
    if front == [] {
      RotatedIsFew(first, last, maxFiles);
    } else {
      KeptNewest(first, front, maxFiles);
      var all := NewestFirst(front) + first;
      RotatedIsFew(before, last, maxFiles);
      FewOfFew(all, last, maxFiles);
    }
  }

  lemma NewestStep(texts: seq<string>, first: seq<string>)
    requires texts != []
    ensures NewestFirst(texts) + first == [texts[|texts| - 1]] + (NewestFirst(texts[..|texts| - 1]) + first)
    ensures NewestFirst([]) + first == first
  {
  }

  lemma RotatedIsFew(listing: seq<string>, last: string, maxFiles: nat)
    requires maxFiles >= 1
    ensures RotatedListing(listing, last, maxFiles) == FirstFew([last] + listing, maxFiles)
  {
    var keep := Survivors(|listing|, maxFiles);
    if |listing| + 1 > maxFiles { assert ([last] + listing)[..maxFiles] == [last] + listing[..maxFiles - 1]; }
  }

  lemma FewOfFew(all: seq<string>, last: string, n: nat)
    requires n >= 1
    ensures FirstFew([last] + FirstFew(all, n), n) == FirstFew([last] + all, n)
  {
  }

  lemma {:induction false} RenamedSize(survivors: nat)
    ensures |Renamed(survivors, 0)| == survivors
  {
    if survivors > 0 { RenamedSize(survivors - 1); }
  }

  lemma LastNumber(files: Files, m: nat, k: nat)
    requires Contiguous(files, m) && m < MAX_ROTATED_FILES && (k > 0 ==> k in files)
    requires (!HasName(k + 1) || k + 1 !in files)
    ensures k == m
  {
  }

  lemma DownHead(n: nat)
    requires Down(n) != []
    ensures n > 0 && Down(n)[0] == n && Down(n)[1..] == Down(n - 1)
  {
  }

  lemma ShiftStart(files: Files, k: nat, maxFiles: nat)
    requires Contiguous(files, k)
    ensures Shifted(files, files, k, Survivors(k, maxFiles)) && Renamed(Survivors(k, maxFiles), k) == []
  {
  }

  /** One file dealt with: unlinked when it does not survive, moved to the free number above else. */
  lemma ShiftStep(before: Files, files: Files, p: nat, k: nat, maxFiles: nat)
    requires Contiguous(before, k) && 0 < p <= k && Shifted(before, files, p, Survivors(k, maxFiles))
    ensures p in files && p + 1 !in files
    ensures maxFiles != 0 && p + 1 > maxFiles ==>
              && Shifted(before, files - {p}, p - 1, Survivors(k, maxFiles))
              && Renamed(Survivors(k, maxFiles), p - 1) == Renamed(Survivors(k, maxFiles), p)
    ensures !(maxFiles != 0 && p + 1 > maxFiles) ==>
              Shifted(before, (files - {p})[p + 1 := files[p]], p - 1, Survivors(k, maxFiles)) &&
              Renamed(Survivors(k, maxFiles), p - 1) == Renamed(Survivors(k, maxFiles), p) + [p + 1]
  {
    if !(maxFiles != 0 && p + 1 > maxFiles) { RenamedStep(Survivors(k, maxFiles), p); }
  }

  lemma ShiftDone(before: Files, files: Files, survivors: nat)
    requires Shifted(before, files, 0, survivors)
    ensures forall i :: i in files <==> 2 <= i <= survivors + 1
    ensures forall i :: 1 <= i <= survivors && i in before ==> files[i + 1] == before[i]
  {
  }
}
