/** The migration command that copies legacy blobs into object storage. */
module Backfill {
  import opened Wrappers
  import opened Storage

  datatype Attachment = Attachment(key: Key, size: Size)

  datatype Verdict = Copied | SkippedExisting | MissingSource | SizeMismatch | Failed

  datatype Stats = Stats(copied: nat, skippedExisting: nat, missingSource: nat, sizeMismatch: nat, failed: nat)

  datatype CommandError = RequiresObjectStorage

  /** What an upload attempt leaves under its key once the command has checked the copied size. */
  function Residue(source: Blob, outcome: UploadOutcome): (r: Option<Blob>) {
    match outcome
    case UploadRaised(left) => left
    case Uploaded(stored, sizeQueryRaises) =>
      if sizeQueryRaises || |stored| == |source| then Some(stored) else None
  }

  predicate Attempted(objects: map<Key, Blob>, source: map<Key, Blob>, a: Attachment, dryRun: bool) {
    a.key !in objects && a.key in source && |source[a.key]| == a.size && !dryRun
  }

  function VerdictOn(
    objects: map<Key, Blob>, source: map<Key, Blob>, a: Attachment, dryRun: bool, outcome: UploadOutcome)
      : (v: Verdict)
  {
    if a.key in objects then SkippedExisting
    else if a.key !in source then MissingSource
    else if |source[a.key]| != a.size then SizeMismatch
    else if dryRun then Copied
    else if outcome.Uploaded? && !outcome.sizeQueryRaises && |outcome.stored| == |source[a.key]| then Copied
    else Failed
  }

  function Visit(
    objects: map<Key, Blob>, source: map<Key, Blob>, a: Attachment, dryRun: bool, outcome: UploadOutcome)
      : (r: map<Key, Blob>)
  {
    if !Attempted(objects, source, a, dryRun) then objects
    else
      match Residue(source[a.key], outcome)
      case None => objects
      case Some(left) => objects[a.key := left]
  }

  /** The object store after the first rows of a run. */
  function ObjectsAfter(
    objects: map<Key, Blob>, source: map<Key, Blob>, rows: seq<Attachment>, dryRun: bool,
    outcomes: seq<UploadOutcome>): (r: map<Key, Blob>)
    requires |outcomes| == |rows|
  {
    if rows == [] then objects
    else
      var n := |rows| - 1;
      Visit(ObjectsAfter(objects, source, rows[..n], dryRun, outcomes[..n]), source, rows[n], dryRun, outcomes[n])
  }

  function Verdicts(
    objects: map<Key, Blob>, source: map<Key, Blob>, rows: seq<Attachment>, dryRun: bool,
    outcomes: seq<UploadOutcome>): (r: seq<Verdict>)
    requires |outcomes| == |rows|
    ensures |r| == |rows|
  {
    if rows == [] then []
    else
      var n := |rows| - 1;
      var before := ObjectsAfter(objects, source, rows[..n], dryRun, outcomes[..n]);
      Verdicts(objects, source, rows[..n], dryRun, outcomes[..n]) 
        + [VerdictOn(before, source, rows[n], dryRun, outcomes[n])]
  }

  function Count(verdicts: seq<Verdict>, v: Verdict): (c: nat) {
    |set i | 0 <= i < |verdicts| && verdicts[i] == v|
  }

  ghost predicate Tallies(stats: Stats, verdicts: seq<Verdict>) {
    && stats.copied == Count(verdicts, Copied)
    && stats.skippedExisting == Count(verdicts, SkippedExisting)
    && stats.missingSource == Count(verdicts, MissingSource)
    && stats.sizeMismatch == Count(verdicts, SizeMismatch)
    && stats.failed == Count(verdicts, Failed)
  }

  lemma CountStep(verdicts: seq<Verdict>, last: Verdict, v: Verdict)
    ensures Count(verdicts + [last], v) == Count(verdicts, v) + if last == v then 1 else 0
  {
    var longer, n := verdicts + [last], |verdicts|;
    var before := set i | 0 <= i < n && verdicts[i] == v;
    var after := set i | 0 <= i < n + 1 && longer[i] == v;
    assert longer[n] == last && forall i | 0 <= i < n :: longer[i] == verdicts[i];
    if last == v {
      assert after == before + {n} && n !in before;
    } else {
      assert after == before;
    }
  }

  function Tick(stats: Stats, v: Verdict): (r: Stats) {
    match v
    case Copied => stats.(copied := stats.copied + 1)
    case SkippedExisting => stats.(skippedExisting := stats.skippedExisting + 1)
    case MissingSource => stats.(missingSource := stats.missingSource + 1)
    case SizeMismatch => stats.(sizeMismatch := stats.sizeMismatch + 1)
    case Failed => stats.(failed := stats.failed + 1)
  }

  /** The store and the counters are what the first `i` rows make of them. */
  ghost predicate Progress(
    objects: map<Key, Blob>, source: map<Key, Blob>, rows: seq<Attachment>, dryRun: bool,
    outcomes: seq<UploadOutcome>, i: nat, now: map<Key, Blob>, stats: Stats)
    requires |outcomes| == |rows| && i <= |rows|
  {
    && now == ObjectsAfter(objects, source, rows[..i], dryRun, outcomes[..i])
    && Tallies(stats, Verdicts(objects, source, rows[..i], dryRun, outcomes[..i]))
  }

  /** One row more: its visit changes the store, its verdict moves one counter. */
  lemma OneMoreRow(
    objects: map<Key, Blob>, source: map<Key, Blob>, rows: seq<Attachment>, dryRun: bool,
    outcomes: seq<UploadOutcome>, i: nat,
    now: map<Key, Blob>, stats: Stats, next: map<Key, Blob>, nextStats: Stats)
    requires |outcomes| == |rows| && i < |rows|
    requires Progress(objects, source, rows, dryRun, outcomes, i, now, stats)
    requires next == Visit(now, source, rows[i], dryRun, outcomes[i])
    requires nextStats == Tick(stats, VerdictOn(now, source, rows[i], dryRun, outcomes[i]))
    ensures Progress(objects, source, rows, dryRun, outcomes, i + 1, next, nextStats)
  {
    var v := VerdictOn(now, source, rows[i], dryRun, outcomes[i]);
    var done := Verdicts(objects, source, rows[..i], dryRun, outcomes[..i]);
    assert rows[..i + 1][..i] == rows[..i] && outcomes[..i + 1][..i] == outcomes[..i];
    assert Verdicts(objects, source, rows[..i + 1], dryRun, outcomes[..i + 1]) == done + [v];
    TickTallies(stats, done, v);
  }

  lemma TickTallies(stats: Stats, verdicts: seq<Verdict>, v: Verdict)
    requires Tallies(stats, verdicts)
    ensures Tallies(Tick(stats, v), verdicts + [v])
  {
    CountStep(verdicts, v, Copied);
    CountStep(verdicts, v, SkippedExisting);
    CountStep(verdicts, v, MissingSource);
    CountStep(verdicts, v, SizeMismatch);
    CountStep(verdicts, v, Failed);
  }

  class Command {
    const backend: Backend
    const storage: S3Storage
    const sourceFiles: FilesystemStorage

    constructor (backend: Backend, storage: S3Storage, sourceFiles: FilesystemStorage)
      ensures this.backend == backend && this.storage == storage && this.sourceFiles == sourceFiles
    {
      this.backend, this.storage, this.sourceFiles := backend, storage, sourceFiles;
    }

    /** Uploads the legacy file of `a`; a copy of the wrong size is deleted again. */
    method CopyToObjectStorage(a: Attachment, outcome: UploadOutcome) returns (copied: bool)
      requires Attempted(storage.objects, sourceFiles.files, a, false)
      modifies storage
      ensures storage.objects == Visit(old(storage.objects), sourceFiles.files, a, false, outcome)
      ensures copied <==> VerdictOn(old(storage.objects), sourceFiles.files, a, false, outcome) == Copied
    {
      var raised := storage.UploadFromPath(a.key, outcome);
      if raised || outcome.sizeQueryRaises {
        return false;
      }
      if |storage.objects[a.key]| != |sourceFiles.files[a.key]| {
        storage.Delete(a.key);
        assert storage.objects == old(storage.objects);
        return false;
      }
      copied := true;
    }

    /** One pass over the attachment rows; `outcomes[i]` is how an upload for row `i` would end. */
    method Handle(
      rows: seq<Attachment>, dryRun: bool, outcomes: seq<UploadOutcome>) returns (r: Result<Stats, CommandError>)
      requires |outcomes| == |rows|
      modifies storage
      ensures backend.FilesystemBackend? ==> r == Err(RequiresObjectStorage) && storage.objects == old(storage.objects)
      ensures backend.S3Backend? ==>
        && r.Ok?
        && storage.objects == ObjectsAfter(old(storage.objects), sourceFiles.files, rows, dryRun, outcomes)
        && Tallies(r.value, Verdicts(old(storage.objects), sourceFiles.files, rows, dryRun, outcomes))
    {
      if backend.FilesystemBackend? {
        return Err(RequiresObjectStorage);
      }
      ghost var objects := storage.objects;
      var files := sourceFiles.files;
      var stats := Stats(0, 0, 0, 0, 0);
      var i := 0;
      while i < |rows|
        invariant 0 <= i <= |rows|
        invariant Progress(objects, files, rows, dryRun, outcomes, i, storage.objects, stats)
      {
        var a := rows[i];
        ghost var now, before := storage.objects, stats;
        if a.key in storage.objects {
          stats := stats.(skippedExisting := stats.skippedExisting + 1);
        } else if a.key !in files {
          stats := stats.(missingSource := stats.missingSource + 1);
        } else if |files[a.key]| != a.size {
          stats := stats.(sizeMismatch := stats.sizeMismatch + 1);
        } else if dryRun {
          stats := stats.(copied := stats.copied + 1);
        } else {
          var copied := CopyToObjectStorage(a, outcomes[i]);
          stats := if copied then stats.(copied := stats.copied + 1) else stats.(failed := stats.failed + 1);
        }
        OneMoreRow(objects, files, rows, dryRun, outcomes, i, now, before, storage.objects, stats);
        i := i + 1;
      }
      assert rows[..i] == rows && outcomes[..i] == outcomes;
      r := Ok(stats);
    }
  }

  ghost predicate UniqueKeys(rows: seq<Attachment>) {
    forall i, j | 0 <= i < j < |rows| :: rows[i].key != rows[j].key
  }

  /** Every row lands in exactly one counter. */
  lemma {:induction false} CountersCoverRows(stats: Stats, verdicts: seq<Verdict>)
    requires Tallies(stats, verdicts)
    ensures stats.copied + stats.skippedExisting + stats.missingSource + stats.sizeMismatch + stats.failed == |verdicts|
    decreases |verdicts|
  {
    if verdicts != [] {
      var n := |verdicts| - 1;
      var shorter, last := verdicts[..n], verdicts[n];
      assert verdicts == shorter + [last];
      CountStep(shorter, last, Copied);
      CountStep(shorter, last, SkippedExisting);
      CountStep(shorter, last, MissingSource);
      CountStep(shorter, last, SizeMismatch);
      CountStep(shorter, last, Failed);
      CountersCoverRows(
        Stats(Count(shorter, Copied), Count(shorter, SkippedExisting), Count(shorter, MissingSource),
              Count(shorter, SizeMismatch), Count(shorter, Failed)), shorter);
    }
  }

  function LookUp(objects: map<Key, Blob>, key: Key): (r: Option<Blob>) {
    if key in objects then Some(objects[key]) else None
  }

  lemma VisitIsLocal(
    one: map<Key, Blob>, two: map<Key, Blob>, source: map<Key, Blob>, a: Attachment, dryRun: bool,
    outcome: UploadOutcome)
    requires LookUp(one, a.key) == LookUp(two, a.key)
    ensures LookUp(Visit(one, source, a, dryRun, outcome), a.key)
         == LookUp(Visit(two, source, a, dryRun, outcome), a.key)
    ensures VerdictOn(one, source, a, dryRun, outcome) == VerdictOn(two, source, a, dryRun, outcome)
  {
  }

  lemma {:induction false} OtherKeysUntouched(
    objects: map<Key, Blob>, source: map<Key, Blob>, rows: seq<Attachment>, dryRun: bool,
    outcomes: seq<UploadOutcome>, key: Key)
    requires |outcomes| == |rows|
    requires forall i | 0 <= i < |rows| :: rows[i].key != key
    ensures LookUp(ObjectsAfter(objects, source, rows, dryRun, outcomes), key) == LookUp(objects, key)
    decreases |rows|
  {
    if rows != [] {
      var n := |rows| - 1;
      OtherKeysUntouched(objects, source, rows[..n], dryRun, outcomes[..n], key);
    }
  }

  /** Rows have their own keys, so each is judged and stored as if it were alone. */
  lemma {:induction false} RowsAreIndependent(
    objects: map<Key, Blob>, source: map<Key, Blob>, rows: seq<Attachment>, dryRun: bool,
    outcomes: seq<UploadOutcome>, i: nat)
    requires |outcomes| == |rows| && UniqueKeys(rows) && i < |rows|
    ensures LookUp(ObjectsAfter(objects, source, rows, dryRun, outcomes), rows[i].key)
         == LookUp(Visit(objects, source, rows[i], dryRun, outcomes[i]), rows[i].key)
    ensures Verdicts(objects, source, rows, dryRun, outcomes)[i]
         == VerdictOn(objects, source, rows[i], dryRun, outcomes[i])
    decreases |rows|
  {
    var n := |rows| - 1;
    if i == n {
      OtherKeysUntouched(objects, source, rows[..n], dryRun, outcomes[..n], rows[n].key);
      var before := ObjectsAfter(objects, source, rows[..n], dryRun, outcomes[..n]);
      VisitIsLocal(before, objects, source, rows[n], dryRun, outcomes[n]);
    } else {
      RowsAreIndependent(objects, source, rows[..n], dryRun, outcomes[..n], i);
      assert rows[i].key != rows[n].key;
    }
  }

  /** An attempt no download can tell from the legacy file: nothing left, or an object that begins with it. */
  predicate Harmless(source: Blob, outcome: UploadOutcome) {
    match Residue(source, outcome)
    case None => true
    case Some(left) => |left| >= |source| && left[..|source|] == source
  }

  predicate SameDownloads(before: Stores, after: Stores, a: Attachment, header: Option<string>) {
    AnswerFor(before, a.key, a.size, header) == AnswerFor(after, a.key, a.size, header)
  }

  /** A run of bytes within a prefix is the same run of the whole. */
  lemma RunWithinPrefix(whole: Blob, prefix: Blob, first: nat, last: nat)
    requires |prefix| <= |whole| && whole[..|prefix|] == prefix
    requires first <= last < |prefix|
    ensures whole[first..last + 1] == prefix[first..][..last - first + 1]
    ensures whole[first..last + 1][..last - first + 1] == whole[first..last + 1]
  {
    forall i | first <= i <= last ensures whole[i] == prefix[i] {
      assert whole[..|prefix|][i] == whole[i];
    }
  }

  lemma HarmlessObject(before: Stores, a: Attachment, left: Blob, after: Stores, parsed: Ranges.Parsed)
    requires before.backend.S3Backend? && after.backend.S3Backend? && after.files == before.files
    requires a.key !in before.objects && a.key in before.files && |before.files[a.key]| == a.size
    requires a.key in after.objects && after.objects[a.key] == left
    requires |left| >= a.size && left[..a.size] == before.files[a.key]
    requires parsed.Bytes? ==> parsed.first <= parsed.last < a.size
    ensures AnswerTo(before, a.key, a.size, parsed) == AnswerTo(after, a.key, a.size, parsed)
  {
    if parsed.Bytes? {
      RunWithinPrefix(left, before.files[a.key], parsed.first, parsed.last);
    }
  }

  lemma OneRowDownloads(before: Stores, a: Attachment, outcome: UploadOutcome, after: Stores)
    requires before.backend.S3Backend? && after.backend == before.backend && after.files == before.files
    requires Attempted(before.objects, before.files, a, false)
    requires LookUp(after.objects, a.key) == Residue(before.files[a.key], outcome)
    ensures (forall header :: SameDownloads(before, after, a, header)) <==> Harmless(before.files[a.key], outcome)
  {
    var source := before.files[a.key];
    var left := Residue(source, outcome);
    if Harmless(source, outcome) {
      forall header ensures SameDownloads(before, after, a, header) {
        if left.Some? {
          HarmlessObject(before, a, left.value, after, Ranges.ParseSingleRange(header, a.size));
        }
      }
    } else {
      assert AnswerFor(after, a.key, a.size, None).body == left.value[..Least(a.size, |left.value|)];
      assert AnswerFor(before, a.key, a.size, None).body == source;
      assert !SameDownloads(before, after, a, None);
    }
  }

  function Migrate(before: Stores, rows: seq<Attachment>, dryRun: bool, outcomes: seq<UploadOutcome>): (r: Stores)
    requires |outcomes| == |rows|
  {
    before.(objects := ObjectsAfter(before.objects, before.files, rows, dryRun, outcomes))
  }

  lemma SameObjectSameDownload(before: Stores, after: Stores, a: Attachment, parsed: Ranges.Parsed)
    requires after.backend == before.backend && after.files == before.files
    requires LookUp(after.objects, a.key) == LookUp(before.objects, a.key)
    ensures AnswerTo(before, a.key, a.size, parsed) == AnswerTo(after, a.key, a.size, parsed)
  {
  }

  /** What the backfill does to the downloads of row `i`. */
  lemma RowDownloads(before: Stores, rows: seq<Attachment>, dryRun: bool, outcomes: seq<UploadOutcome>, i: nat)
    requires before.backend.S3Backend? && |outcomes| == |rows| && UniqueKeys(rows) && i < |rows|
    ensures (forall header :: SameDownloads(before, Migrate(before, rows, dryRun, outcomes), rows[i], header))
       <==> IsHarmlessRow(before, rows[i], dryRun, outcomes[i])
  {
    var a, after := rows[i], Migrate(before, rows, dryRun, outcomes);
    RowsAreIndependent(before.objects, before.files, rows, dryRun, outcomes, i);
    if Attempted(before.objects, before.files, a, dryRun) {
      OneRowDownloads(before, a, outcomes[i], after);
    } else {
      forall header ensures SameDownloads(before, after, a, header) {
        SameObjectSameDownload(before, after, a, Ranges.ParseSingleRange(header, a.size));
      }
    }
  }

  predicate IsHarmlessRow(before: Stores, a: Attachment, dryRun: bool, outcome: UploadOutcome) {
    Attempted(before.objects, before.files, a, dryRun) ==> Harmless(before.files[a.key], outcome)
  }

  /**
   * A backfill from the legacy files leaves every download of every attachment unchanged, for every
   * header, exactly when each upload it attempts is harmless.
   */
  lemma DownloadsSurviveIffHarmless(before: Stores, rows: seq<Attachment>, dryRun: bool, outcomes: seq<UploadOutcome>)
    requires before.backend.S3Backend? && |outcomes| == |rows| && UniqueKeys(rows)
    ensures (forall i, header | 0 <= i < |rows| ::
               SameDownloads(before, Migrate(before, rows, dryRun, outcomes), rows[i], header))
       <==> (forall i | 0 <= i < |rows| :: IsHarmlessRow(before, rows[i], dryRun, outcomes[i]))
  {
    forall i | 0 <= i < |rows|
      ensures (forall header :: SameDownloads(before, Migrate(before, rows, dryRun, outcomes), rows[i], header))
         <==> IsHarmlessRow(before, rows[i], dryRun, outcomes[i])
    {
      RowDownloads(before, rows, dryRun, outcomes, i);
    }
  }

  /** Failing uploads leave nothing, successful ones are faithful or visibly short, size queries work. */
  predicate WellBehaved(source: Blob, outcome: UploadOutcome) {
    match outcome
    case UploadRaised(left) => left == None
    case Uploaded(stored, sizeQueryRaises) => !sizeQueryRaises && (stored == source || |stored| != |source|)
  }

  /**
   * With a well-behaved object store the backfill changes no download, and a second run over the same
   * rows and files skips exactly the rows the first run skipped or copied.
   */
  lemma BackfillIsSafeAndIdempotent(
    before: Stores, rows: seq<Attachment>, outcomes: seq<UploadOutcome>, later: seq<UploadOutcome>)
    requires before.backend.S3Backend? && |outcomes| == |later| == |rows| && UniqueKeys(rows)
    requires forall i | 0 <= i < |rows| && Attempted(before.objects, before.files, rows[i], false) ::
      WellBehaved(before.files[rows[i].key], outcomes[i])
    ensures forall i, header | 0 <= i < |rows| ::
      SameDownloads(before, Migrate(before, rows, false, outcomes), rows[i], header)
    ensures forall i | 0 <= i < |rows| :: SkippedAgainIffKept(before, rows, outcomes, later, i)
  {
    DownloadsSurviveIffHarmless(before, rows, false, outcomes);
    forall i | 0 <= i < |rows|
      ensures SkippedAgainIffKept(before, rows, outcomes, later, i)
    {
      SecondRunSkips(before, rows, outcomes, later, i);
    }
  }

  /** The second run skips row `i` if and only if the first run skipped or copied it. */
  ghost predicate SkippedAgainIffKept(
    before: Stores, rows: seq<Attachment>, outcomes: seq<UploadOutcome>, later: seq<UploadOutcome>, i: nat)
    requires |outcomes| == |later| == |rows| && i < |rows|
  {
    var after := Migrate(before, rows, false, outcomes);
    var first := Verdicts(before.objects, before.files, rows, false, outcomes);
    var second := Verdicts(after.objects, after.files, rows, false, later);
    second[i].SkippedExisting? <==> first[i].SkippedExisting? || first[i].Copied?
  }

  lemma SecondRunSkips(
    before: Stores, rows: seq<Attachment>, outcomes: seq<UploadOutcome>, later: seq<UploadOutcome>, i: nat)
    requires |outcomes| == |later| == |rows| && UniqueKeys(rows) && i < |rows|
    requires Attempted(before.objects, before.files, rows[i], false) ==>
      WellBehaved(before.files[rows[i].key], outcomes[i])
    ensures SkippedAgainIffKept(before, rows, outcomes, later, i)
  {
    var after := Migrate(before, rows, false, outcomes);
    RowsAreIndependent(before.objects, before.files, rows, false, outcomes, i);
    RowsAreIndependent(after.objects, after.files, rows, false, later, i);
  }

  /** Without a range the served blob is sent up to its recorded size. */
  lemma WholeDownload(stores: Stores, a: Attachment)
    requires Stored(stores, a.key).Some?
    ensures AnswerFor(stores, a.key, a.size, None) == Whole(a.size, Budgeted(Stored(stores, a.key).value, Some(a.size)))
  {
  }

  lemma ShortObjectShows(before: Stores, after: Stores, a: Attachment)
    requires Stored(before, a.key).Some? && |Stored(before, a.key).value| == a.size
    requires Stored(after, a.key).Some? && |Stored(after, a.key).value| < a.size
    ensures !SameDownloads(before, after, a, None)
  {
    WholeDownload(before, a);
    WholeDownload(after, a);
  }

  /** A size query that raises after an upload is enough to change what users download. */
  lemma UncheckedUploadChangesDownloads()
    ensures var before := Stores(S3Backend, map[], map["ab/f" := [1, 2]]);
      var rows := [Attachment("ab/f", 2)];
      var outcomes := [Uploaded([1], true)];
      && !SameDownloads(before, Migrate(before, rows, false, outcomes), rows[0], None)
      && Verdicts(before.objects, before.files, rows, false, outcomes) == [Failed]
  {
    var before := Stores(S3Backend, map[], map["ab/f" := [1, 2]]);
    var rows := [Attachment("ab/f", 2)];
    var outcomes := [Uploaded([1], true)];
    assert rows[..0] == [] && outcomes[..0] == [];
    assert ObjectsAfter(map[], before.files, rows, false, outcomes) == map["ab/f" := [1]];
    ShortObjectShows(before, Migrate(before, rows, false, outcomes), rows[0]);
  }
}
