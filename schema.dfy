/** The `blocklist` table's constraints as predicates on rows and on the whole table. The table is a
    map from the primary key `id` to the row; every column is NOT NULL, which a Dafny string already is. */
module Schema {
  import opened Models

  /** The values `CHECK(severity IN (...))` admits. */
  const SeverityValues: set<string> := {"low", "medium", "high"}

  /** The values `CHECK(source IN (...))` admits. */
  const SourceValues: set<string> := {"manual", "imported", "auto-detected"}

  /** The column default of `metadata`. */
  const MetadataDefault: string := "{}"

  type Table = map<string, Entry>

  predicate ValidSeverity(s: string) {
    s in SeverityValues
  }

  predicate ValidSource(s: string) {
    s in SourceValues
  }

  /** A row that satisfies both CHECK constraints. */
  predicate RowValid(e: Entry) {
    ValidSeverity(e.severity) && ValidSource(e.source)
  }

  /** Every row is stored under its own id (so no two rows share an id) and satisfies the CHECKs. */
  predicate TableValid(t: Table) {
    forall id :: id in t ==> t[id].id == id && RowValid(t[id])
  }

  /** The enumerations of the record type and of the schema are the same sets, and the metadata
      a new entry gets is the column default. */
  lemma ConstantsMatchSchema()
    ensures {SeverityLow, SeverityMedium, SeverityHigh} == SeverityValues
    ensures {SourceManual, SourceImported, SourceAutoDetected} == SourceValues
    ensures EmptyMetadata == MetadataDefault
  {
  }

  /** Two distinct rows of a valid table have distinct ids. */
  lemma PrimaryKeyUnique(t: Table, a: string, b: string)
    requires TableValid(t) && a in t && b in t && a != b
    ensures t[a].id != t[b].id
  {
  }
}
