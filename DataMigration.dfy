/** The one-off migration of the car-wash app from local storage to the remote store:
    every local record is uploaded once, in order, and the "migrated" flag is set when
    there was nothing to migrate or at least one upload succeeded. The flag is the class
    field `flag` (what local storage holds under the migration key); what each upload
    answered is a parameter. */
module DataMigration {
  import opened Wrappers

  const MigrationKey := "dataMigratedToFirebase"
  const FlagValue := "true"

  /** What one `firebaseDataStorage.addRecord(record)` did. */
  datatype Upload = Uploaded | Refused(error: string) | Threw

  /** The object `migrateData` returns; the early return for no records has no `errorCount`. */
  datatype MigrationResult = MigrationResult(success: bool, migratedCount: nat, errorCount: Option<nat>)

  /** The number of successful uploads. */
  function Successes(uploads: seq<Upload>): (n: nat)
    ensures n <= |uploads|
    ensures n == |uploads| <==> forall k :: 0 <= k < |uploads| ==> uploads[k].Uploaded?
    ensures n == 0 <==> forall k :: 0 <= k < |uploads| ==> !uploads[k].Uploaded?
  {
    if |uploads| == 0 then 0
    else
      var pre := uploads[..|uploads| - 1];
      var n := Successes(pre);
      assert forall k :: 0 <= k < |pre| ==> pre[k] == uploads[k];
      (if uploads[|uploads| - 1].Uploaded? then 1 else 0) + n
  }

  /** The result for a non-empty list of records, given what each upload did. */
  function Summary(uploads: seq<Upload>): (r: MigrationResult)
    ensures r.errorCount.Some? && r.migratedCount + r.errorCount.value == |uploads|
    ensures r.success <==> forall k :: 0 <= k < |uploads| ==> uploads[k].Uploaded?
    ensures r.migratedCount == 0 <==> forall k :: 0 <= k < |uploads| ==> !uploads[k].Uploaded?
  {
    var s := Successes(uploads);
    MigrationResult(|uploads| - s == 0, s, Some(|uploads| - s))
  }

  class DataMigrationService {
    /** `localStorage.getItem(migrationKey)` */
    var flag: Option<string>

    constructor(stored: Option<string>)
      ensures flag == stored
    {
      flag := stored;
    }

    /** `needsMigration`: the flag is missing (or empty). */
    function NeedsMigration(): (b: bool)
      reads this
      ensures b <==> flag == None || flag == Some("")
    {
      flag.None? || flag.value == ""
    }

    /** `markMigrationComplete` */
    method MarkMigrationComplete()
      modifies this
      ensures flag == Some(FlagValue) && !NeedsMigration()
    {
      flag := Some(FlagValue);
    }

    /** `resetMigrationStatus` */
    method ResetMigrationStatus()
      modifies this
      ensures flag == None && NeedsMigration()
    {
      flag := None;
    }

    /** `migrateData`: `uploads[k]` is what uploading `records[k]` did. Returns the result
        and the records handed to the remote store, in the order they were handed over. */
    method MigrateData<R>(records: seq<R>, uploads: seq<Upload>) returns (result: MigrationResult, attempted: seq<R>)
      requires |uploads| == |records|
      modifies this
      ensures |records| == 0 ==>
                result == MigrationResult(true, 0, None) && attempted == [] && flag == Some(FlagValue)
      ensures |records| > 0 ==> result == Summary(uploads) && attempted == records
      ensures |records| > 0 ==> flag == if result.migratedCount > 0 then Some(FlagValue) else old(flag)
    {
      if |records| == 0 {
        MarkMigrationComplete();
        return MigrationResult(true, 0, None), [];
      }
      var successCount: nat := 0;
      var errorCount: nat := 0;
      attempted := [];
      var i := 0;
      while i < |records|
        invariant 0 <= i <= |records|
        invariant attempted == records[..i]
        invariant successCount == Successes(uploads[..i])
        invariant successCount + errorCount == i
      {
        attempted := attempted + [records[i]];
        assert uploads[..i + 1][..i] == uploads[..i];
        match uploads[i] {
          case Uploaded =>
            successCount := successCount + 1;
          case Refused(_) =>
            errorCount := errorCount + 1;
          case Threw =>
            errorCount := errorCount + 1;
        }
        i := i + 1;
      }
      assert uploads[..i] == uploads;
      if successCount > 0 {
        MarkMigrationComplete();
      }
      result := MigrationResult(errorCount == 0, successCount, Some(errorCount));
    }
  }
}
