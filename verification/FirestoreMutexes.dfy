/** Firestore's lock versions: write times carried through strings. */
module FirestoreMutexes {
  import opened Text

  datatype Timestamp = Timestamp(seconds: nat, nanoseconds: nat)

  function TimestampToString(t: Timestamp): string {
    Decimal(t.seconds) + "." + Decimal(t.nanoseconds)
  }

  /** The timestamp that `deleteLockData` rebuilds from a version string for its precondition. */
  function DeletePrecondition(versionId: string): Timestamp
    requires var parts := Split(versionId, '.');
             |parts| >= 2 && AllDigits(parts[0]) && AllDigits(parts[1])
  {
    var parts := Split(versionId, '.');
    Timestamp(ParseDecimal(parts[0]), ParseDecimal(parts[1]))
  }

  /** A version string names one write time: the conditional delete built from it can only match the
      record that was created at that time, so comparing strings is comparing write times. */
  lemma VersionStringsNameWriteTimes(t: Timestamp)
    ensures var parts := Split(TimestampToString(t), '.');
            |parts| == 2 && AllDigits(parts[0]) && AllDigits(parts[1])
    ensures DeletePrecondition(TimestampToString(t)) == t
  {
    var seconds, nanoseconds := Decimal(t.seconds), Decimal(t.nanoseconds);
    SplitCons(seconds, '.', nanoseconds);
    SplitSingle(nanoseconds, '.');
    ParseDecimalInverts(t.seconds);
    ParseDecimalInverts(t.nanoseconds);
  }

  lemma VersionStringsAreDistinct(t: Timestamp, u: Timestamp)
    ensures TimestampToString(t) == TimestampToString(u) <==> t == u
  {
    VersionStringsNameWriteTimes(t);
    VersionStringsNameWriteTimes(u);
  }
}
