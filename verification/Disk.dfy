/**
 The in-memory index of one exported album folder: which file names and metadata file
 names are taken, ignoring case, and which record belongs to which file.
 */
module Disk {
  import opened Sets
  import opened Decimal
  import SyncMachine

  // ---- letter case ----

  /** Lower-casing of one character: idempotent; digits, the underscore and the dot are their own lower case. */
  ghost predicate Folds(f: char -> char) {
    && (forall c :: f(f(c)) == f(c))
    && (forall c :: IsDigit(c) || c == '_' || c == '.' ==> f(c) == c)
  }

  function AsciiLower(c: char): char {
    if 'A' <= c <= 'Z' then c - 'A' + 'a' else c
  }

  type CaseFold = f: char -> char | Folds(f) ghost witness AsciiLower

  function Lower(fold: CaseFold, s: string): (r: string)
    ensures |r| == |s|
    ensures forall i :: 0 <= i < |s| ==> r[i] == fold(s[i])
  {
    seq(|s|, i requires 0 <= i < |s| => fold(s[i]))
  }

  lemma LowerTwice(fold: CaseFold, s: string)
    ensures Lower(fold, Lower(fold, s)) == Lower(fold, s)
  {}

  // ---- fresh names ----

  /** base+ext, base_1+ext, base_2+ext, ... */
  function Candidate(base: string, ext: string, k: nat): string {
    if k == 0 then base + ext else base + "_" + Print(k) + ext
  }

  /** What stands between base and extension in candidate k. */
  function Suffix(k: nat): (s: string)
    ensures forall i :: 0 <= i < |s| ==> IsDigit(s[i]) || s[i] == '_'
  {
    if k == 0 then "" else "_" + Digits(k)
  }

  /** Lower case spares what stands between base and extension. */
  lemma LowerCandidate(fold: CaseFold, base: string, ext: string, k: nat)
    ensures Lower(fold, Candidate(base, ext, k)) == Lower(fold, base) + (Suffix(k) + Lower(fold, ext))
  {}

  lemma SuffixInjective(i: nat, j: nat)
    requires Suffix(i) == Suffix(j)
    ensures i == j
  {
    DigitsRoundTrip(i);
    DigitsRoundTrip(j);
    assert i > 0 ==> Suffix(i)[1..] == Digits(i);
    assert j > 0 ==> Suffix(j)[1..] == Digits(j);
  }

  /** Different candidates differ, ignoring case. */
  lemma CandidatesDistinct(fold: CaseFold, base: string, ext: string, i: nat, j: nat)
    requires Lower(fold, Candidate(base, ext, i)) == Lower(fold, Candidate(base, ext, j))
    ensures i == j
  {
    LowerCandidate(fold, base, ext, i);
    LowerCandidate(fold, base, ext, j);
    DropPrefix(Lower(fold, base), Suffix(i) + Lower(fold, ext), Suffix(j) + Lower(fold, ext));
    var s := Suffix(i) + Lower(fold, ext);
    assert s[..|Suffix(i)|] == Suffix(i) && s[..|Suffix(j)|] == Suffix(j);
    SuffixInjective(i, j);
  }

  /** The first n candidates, ignoring case. */
  ghost function FirstCandidates(fold: CaseFold, base: string, ext: string, n: nat): (s: set<string>)
    ensures forall x :: x in s <==> exists j :: 0 <= j < n && x == Lower(fold, Candidate(base, ext, j))
  {
    if n == 0 then {} else FirstCandidates(fold, base, ext, n - 1) + {Lower(fold, Candidate(base, ext, n - 1))}
  }

  lemma {:induction false} FirstCandidatesSize(fold: CaseFold, base: string, ext: string, n: nat)
    ensures |FirstCandidates(fold, base, ext, n)| == n
  {
    if n > 0 {
      FirstCandidatesSize(fold, base, ext, n - 1);
      var last := Lower(fold, Candidate(base, ext, n - 1));
      if last in FirstCandidates(fold, base, ext, n - 1) {
        var j :| 0 <= j < n - 1 && last == Lower(fold, Candidate(base, ext, j));
        CandidatesDistinct(fold, base, ext, j, n - 1);
      }
    }
  }

  /** Pigeonhole: no more candidates can be taken than there are names. */
  lemma TakenCandidates(fold: CaseFold, taken: set<string>, base: string, ext: string, n: nat)
    requires forall j :: 0 <= j < n ==> Lower(fold, Candidate(base, ext, j)) in taken
    ensures n <= |taken|
  {
    FirstCandidatesSize(fold, base, ext, n);
    SubsetSize(FirstCandidates(fold, base, ext, n), taken);
  }

  /** The name is candidate k, free, and all candidates before it are taken. */
  ghost predicate FirstFree(fold: CaseFold, taken: set<string>, base: string, ext: string, k: nat, name: string) {
    && name == Candidate(base, ext, k)
    && Lower(fold, name) !in taken
    && forall j :: 0 <= j < k ==> Lower(fold, Candidate(base, ext, j)) in taken
  }

  /** The name is the first free one for base and extension. */
  ghost predicate IsFirstFree(fold: CaseFold, taken: set<string>, base: string, ext: string, name: string) {
    exists k :: FirstFree(fold, taken, base, ext, k, name)
  }

  // ---- records and the index as values ----

  /** What a metadata file holds; `row` is the stored file row its fields were copied from. */
  datatype Record = Record(id: int, row: SyncMachine.FileRow, title: string, fileNames: seq<string>)

  /** A record with the name of the file it was read from, which is not part of the file. */
  datatype DiskMeta = DiskMeta(record: Record, metaFileName: string)

  datatype Index = Index(fileNames: set<string>, metaFiles: map<string, Option<DiskMeta>>, byId: map<int, DiskMeta>)

  function LowerAll(fold: CaseFold, names: seq<string>): set<string> {
    set n | n in names :: Lower(fold, n)
  }

  /** Pairwise different, ignoring case. */
  ghost predicate DistinctNames(fold: CaseFold, names: seq<string>) {
    forall i, j :: 0 <= i < j < |names| ==> Lower(fold, names[i]) != Lower(fold, names[j])
  }

  function IndexAdded(fold: CaseFold, ix: Index, m: DiskMeta): Index {
    Index(ix.fileNames + LowerAll(fold, m.record.fileNames),
          ix.metaFiles[Lower(fold, m.metaFileName) := Some(m)],
          ix.byId[m.record.id := m])
  }

  function IndexRemoved(fold: CaseFold, ix: Index, m: DiskMeta): Index {
    Index(ix.fileNames - LowerAll(fold, m.record.fileNames),
          ix.metaFiles - {Lower(fold, m.metaFileName)},
          ix.byId - {m.record.id})
  }

  /** The entry can be added: its id and all its names are new. */
  ghost predicate Addable(fold: CaseFold, ix: Index, m: DiskMeta) {
    && m.record.id !in ix.byId
    && Lower(fold, m.metaFileName) !in ix.metaFiles
    && DistinctNames(fold, m.record.fileNames)
    && LowerAll(fold, m.record.fileNames) !! ix.fileNames
  }

  /** Removing what was just added restores the index exactly. */
  lemma AddThenRemove(fold: CaseFold, ix: Index, m: DiskMeta)
    requires Addable(fold, ix, m)
    ensures IndexRemoved(fold, IndexAdded(fold, ix, m), m) == ix
  {
    var back := IndexRemoved(fold, IndexAdded(fold, ix, m), m);
    assert back.fileNames == ix.fileNames;
    assert back.metaFiles == ix.metaFiles;
    assert back.byId == ix.byId;
  }

  /** Generated names make an entry addable: its metadata name, and one file name. */
  lemma GeneratedIsAddable(fold: CaseFold, ix: Index, base: string, ext: string, i: nat, j: nat, m: DiskMeta)
    requires m.record.id !in ix.byId
    requires FirstFree(fold, ix.metaFiles.Keys, base, ext + ".json", i, m.metaFileName)
    requires |m.record.fileNames| == 1 && FirstFree(fold, ix.fileNames, base, ext, j, m.record.fileNames[0])
    ensures Addable(fold, ix, m)
  {}

  class AlbumDiskInfo {
    const fold: CaseFold
    var fileNames: set<string>
    var metaFiles: map<string, Option<DiskMeta>>
    var byId: map<int, DiskMeta>

    function Value(): Index
      reads this
    {
      Index(fileNames, metaFiles, byId)
    }

    constructor (fold: CaseFold, ix: Index)
      ensures this.fold == fold && Value() == ix
    {
      this.fold := fold;
      fileNames, metaFiles, byId := ix.fileNames, ix.metaFiles, ix.byId;
    }

    predicate IsFileNamePresent(name: string)
      reads this
    {
      Lower(fold, name) in fileNames
    }

    predicate IsMetaFileNamePresent(name: string)
      reads this
    {
      Lower(fold, name) in metaFiles
    }

    /**
     AddEntry: it succeeds exactly on an addable entry. A clash of id or metadata name
     changes nothing; a clash of file names is found late, with `claimed` names taken.
     */
    method AddEntry(m: DiskMeta) returns (ok: bool, ghost claimed: nat)
      modifies this
      ensures ok <==> Addable(fold, old(Value()), m)
      ensures ok ==> Value() == IndexAdded(fold, old(Value()), m)
      ensures m.record.id in old(byId) || Lower(fold, m.metaFileName) in old(metaFiles) ==> Value() == old(Value())
      ensures !ok && m.record.id !in old(byId) && Lower(fold, m.metaFileName) !in old(metaFiles) ==>
                && claimed < |m.record.fileNames| && Lower(fold, m.record.fileNames[claimed]) in fileNames
                && Value() == IndexAdded(fold, old(Value()), m).(
                     fileNames := old(fileNames) + LowerAll(fold, m.record.fileNames[..claimed]))
    {
      claimed := 0;
      if m.record.id in byId || Lower(fold, m.metaFileName) in metaFiles {
        return false, claimed;
      }
      metaFiles := metaFiles[Lower(fold, m.metaFileName) := Some(m)];
      byId := byId[m.record.id := m];
      var names := m.record.fileNames;
      for i := 0 to |names|
        invariant metaFiles == old(metaFiles)[Lower(fold, m.metaFileName) := Some(m)]
        invariant byId == old(byId)[m.record.id := m]
        invariant fileNames == old(fileNames) + LowerAll(fold, names[..i])
        invariant DistinctNames(fold, names[..i])
        invariant LowerAll(fold, names[..i]) !! old(fileNames)
      {
        if Lower(fold, names[i]) in fileNames {
          ClaimedTwice(fold, old(fileNames), names, i);
          return false, i;
        }
        fileNames := fileNames + {Lower(fold, names[i])};
        LowerAllSnoc(fold, names, i);
      }
      assert names[..|names|] == names;
      ok := true;
    }

    /** RemoveEntry: it fails, changing nothing, on an unknown id or metadata name. */
    method RemoveEntry(m: DiskMeta) returns (ok: bool)
      modifies this
      ensures ok <==> m.record.id in old(byId) && Lower(fold, m.metaFileName) in old(metaFiles)
      ensures Value() == if ok then IndexRemoved(fold, old(Value()), m) else old(Value())
    {
      if m.record.id !in byId || Lower(fold, m.metaFileName) !in metaFiles {
        return false;
      }
      metaFiles := metaFiles - {Lower(fold, m.metaFileName)};
      byId := byId - {m.record.id};
      var names := m.record.fileNames;
      for i := 0 to |names|
        invariant metaFiles == old(metaFiles) - {Lower(fold, m.metaFileName)}
        invariant byId == old(byId) - {m.record.id}
        invariant fileNames == old(fileNames) - LowerAll(fold, names[..i])
      {
        fileNames := fileNames - {Lower(fold, names[i])};
        assert LowerAll(fold, names[..i + 1]) == LowerAll(fold, names[..i]) + {Lower(fold, names[i])} by {
          LowerAllPrefix(fold, names, i);
        }
      }
      assert names[..|names|] == names;
      ok := true;
    }

    /** The first candidate whose name no file has, ignoring case. The search always ends. */
    method GenerateUniqueFileName(base: string, ext: string) returns (name: string, ghost k: nat)
      ensures FirstFree(fold, fileNames, base, ext, k, name) && IsFirstFree(fold, fileNames, base, ext, name)
      ensures name == if k == 0 then base + ext else base + "_" + Print(k) + ext
    {
      name, k := base + ext, 0;
      var count := 1;
      LowerTwice(fold, name);
      while IsFileNamePresent(Lower(fold, name))
        invariant count == k + 1 && name == Candidate(base, ext, k)
        invariant IsFileNamePresent(Lower(fold, name)) == IsFileNamePresent(name)
        invariant forall j :: 0 <= j < k ==> Lower(fold, Candidate(base, ext, j)) in fileNames
        decreases |fileNames| + 1 - k
      {
        TakenCandidates(fold, fileNames, base, ext, k + 1);
        name := base + "_" + Print(count) + ext;
        k := count;
        count := count + 1;
        LowerTwice(fold, name);
        if !IsFileNamePresent(Lower(fold, name)) {
          break;
        }
      }
      assert FirstFree(fold, fileNames, base, ext, k, name);
    }

    /** The same search among the metadata file names. */
    method GenerateUniqueMetaFileName(base: string, ext: string) returns (name: string, ghost k: nat)
      ensures FirstFree(fold, metaFiles.Keys, base, ext + ".json", k, name)
      ensures IsFirstFree(fold, metaFiles.Keys, base, ext + ".json", name)
      ensures name == (if k == 0 then base else base + "_" + Print(k)) + ext + ".json"
    {
      name, k := base + ext + ".json", 0;
      var count := 1;
      assert name == Candidate(base, ext + ".json", 0);
      while IsMetaFileNamePresent(name)
        invariant count == k + 1 && name == Candidate(base, ext + ".json", k)
        invariant forall j :: 0 <= j < k ==> Lower(fold, Candidate(base, ext + ".json", j)) in metaFiles
        decreases |metaFiles.Keys| + 1 - k
      {
        TakenCandidates(fold, metaFiles.Keys, base, ext + ".json", k + 1);
        var fileName := base + "_" + Print(count);
        name := fileName + ext + ".json";
        assert name == fileName + (ext + ".json");
        k := count;
        count := count + 1;
        if !IsMetaFileNamePresent(name) {
          break;
        }
      }
      assert FirstFree(fold, metaFiles.Keys, base, ext + ".json", k, name);
    }
  }

  lemma LowerAllPrefix(fold: CaseFold, names: seq<string>, i: nat)
    requires i < |names|
    ensures LowerAll(fold, names[..i + 1]) == LowerAll(fold, names[..i]) + {Lower(fold, names[i])}
  {}

  lemma LowerAllSnoc(fold: CaseFold, names: seq<string>, i: nat)
    requires i < |names| && DistinctNames(fold, names[..i]) && Lower(fold, names[i]) !in LowerAll(fold, names[..i])
    ensures LowerAll(fold, names[..i + 1]) == LowerAll(fold, names[..i]) + {Lower(fold, names[i])}
    ensures DistinctNames(fold, names[..i + 1])
  {}

  /** A name claimed before its turn rules the whole list out. */
  lemma ClaimedTwice(fold: CaseFold, taken: set<string>, names: seq<string>, i: nat)
    requires i < |names| && Lower(fold, names[i]) in taken + LowerAll(fold, names[..i])
    ensures !(DistinctNames(fold, names) && LowerAll(fold, names) !! taken)
  {}
}
