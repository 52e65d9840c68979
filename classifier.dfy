/** Schema classification of scanned export files (utils/utils.py): the
    duplicate-label flag of a header, the registry lookup that mints
    provisional keys for unknown layouts, and the scan that splits files
    into classified ones and ones with repeated labels. The module-level
    globals of the source (`schema_key`, `schema_new`, `flles`,
    `schema_type`, `files_with_duplicate_columns`) are the fields of
    `Classifier`; `State` is a value snapshot of them on which the
    behaviour is specified. */
module Classifier {
  import opened Wrappers
  import opened Text
  import opened Paths
  import opened SchemaRegistry

  // ---------------------------------------------------------------------
  // The duplicate-label flag: len(set(columns)) == len(columns)

  function ToSet(s: seq<string>): set<string>
  {
    set x | x in s
  }

  /** The flag `get_csv_headers` returns beside the header. */
  predicate HeaderIsUnique(columns: seq<string>)
  {
    |ToSet(columns)| == |columns|
  }

  /** The flag holds exactly when the labels are pairwise distinct. */
  lemma {:induction false} HeaderIsUniqueIffDistinct(columns: seq<string>)
    ensures |ToSet(columns)| <= |columns|
    ensures HeaderIsUnique(columns) <==> Distinct(columns)
  {
    if columns != [] {
      var rest := columns[1..];
      HeaderIsUniqueIffDistinct(rest);
      assert ToSet(columns) == {columns[0]} + ToSet(rest);
      if columns[0] in rest {
        assert ToSet(columns) == ToSet(rest);
        var k :| 0 <= k < |rest| && rest[k] == columns[0];
        assert columns[0] == columns[k + 1];
      } else {
        assert columns[0] !in ToSet(rest);
        if Distinct(rest) {
          forall i, j | 0 <= i < j < |columns| ensures columns[i] != columns[j] {
            if i > 0 {
              assert columns[i] == rest[i - 1] && columns[j] == rest[j - 1];
            } else {
              assert columns[j] == rest[j - 1];
            }
          }
        }
        if Distinct(columns) {
          forall i, j | 0 <= i < j < |rest| ensures rest[i] != rest[j] {
            assert rest[i] == columns[i + 1] && rest[j] == columns[j + 1];
          }
        }
      }
    }
  }

  // ---------------------------------------------------------------------
  // Registry lookup: sorted(existing_value) == sorted(new_list)

  type Registry = seq<(string, Signature)>

  /** Two lists are equal once sorted exactly when they hold the same
      multiset of entries. */
  predicate Matches(sig: Signature, header: seq<string>)
  {
    multiset(sig.Entries()) == multiset(header)
  }

  /** The first registry position at or after `from` whose signature the
      header matches. */
  function FirstMatchFrom(reg: Registry, header: seq<string>, from: nat): (r: Option<nat>)
    requires from <= |reg|
    ensures r.Some? ==> from <= r.value < |reg| && Matches(reg[r.value].1, header)
    ensures r.Some? ==> forall j :: from <= j < r.value ==> !Matches(reg[j].1, header)
    ensures r.None? ==> forall j :: from <= j < |reg| ==> !Matches(reg[j].1, header)
    decreases |reg| - from
  {
    if from == |reg| then None
    else if Matches(reg[from].1, header) then Some(from)
    else FirstMatchFrom(reg, header, from + 1)
  }

  function FirstMatch(reg: Registry, header: seq<string>): Option<nat>
  {
    FirstMatchFrom(reg, header, 0)
  }

  /** The lookup only sees the header's multiset of labels: reordering the
      columns does not change which entry is found. */
  lemma {:induction false} FirstMatchIgnoresOrder(reg: Registry, h1: seq<string>, h2: seq<string>, from: nat)
    requires from <= |reg|
    requires multiset(h1) == multiset(h2)
    ensures FirstMatchFrom(reg, h1, from) == FirstMatchFrom(reg, h2, from)
    decreases |reg| - from
  {
    if from < |reg| && !Matches(reg[from].1, h1) {
      FirstMatchIgnoresOrder(reg, h1, h2, from + 1);
    }
  }

  lemma NotPermutations(i: nat, j: nat)
    requires i < j < |LookupSchema|
    ensures multiset(LookupSchema[i].1.Entries()) != multiset(LookupSchema[j].1.Entries())
  {
    NoTwoPermutations();
  }

  /** Since no two registered signatures are permutations of each other, a
      header matching entry i of `lookup_schema` finds entry i, and matches
      no other entry. */
  lemma MatchIsUnique(header: seq<string>, i: nat)
    requires i < |LookupSchema| && Matches(LookupSchema[i].1, header)
    ensures FirstMatch(LookupSchema, header) == Some(i)
    ensures forall j :: 0 <= j < |LookupSchema| && j != i ==> !Matches(LookupSchema[j].1, header)
  {
    var r := FirstMatch(LookupSchema, header);
    assert r.Some? && r.value <= i;
    if r.value < i {
      NotPermutations(r.value, i);
    }
    forall j | 0 <= j < |LookupSchema| && j != i ensures !Matches(LookupSchema[j].1, header) {
      if j < i {
        NotPermutations(j, i);
      } else {
        NotPermutations(i, j);
      }
    }
  }

  // ---------------------------------------------------------------------
  // Provisional keys: f'UNknown_Schema_{schema_key}'

  const UnknownPrefix: string := "UNknown_Schema_"

  function UnknownKey(k: nat): string
  {
    UnknownPrefix + NatToString(k)
  }

  /** Different counter values give different keys. */
  lemma UnknownKeyInjective(a: nat, b: nat)
    requires UnknownKey(a) == UnknownKey(b)
    ensures a == b
  {
    assert NatToString(a) == UnknownKey(a)[|UnknownPrefix|..];
    assert NatToString(b) == UnknownKey(b)[|UnknownPrefix|..];
    NatToStringInjective(a, b);
  }

  /** No registry key has the shape of a provisional key. */
  ghost predicate NoProvisionalKeys(reg: Registry)
  {
    forall i, k :: 0 <= i < |reg| ==> reg[i].0 != UnknownKey(k)
  }

  /** `lookup_schema`'s keys all start with "S", provisional ones with "U". */
  lemma LookupSchemaHasNoProvisionalKeys()
    ensures NoProvisionalKeys(LookupSchema)
  {
    LookupSchemaKeys();
    forall i, k | 0 <= i < |LookupSchema| ensures LookupSchema[i].0 != UnknownKey(k) {
      assert UnknownKey(k)[0] == 'U';
      assert LookupSchema[i].0[0] == 'S';
    }
  }

  /** The keys minted before the counter reached `n`. */
  function Minted(n: nat): set<string>
  {
    set k | 1 <= k < n :: UnknownKey(k)
  }

  // ---------------------------------------------------------------------
  // The classifier's state, as a value

  datatype ScannedFile = ScannedFile(path: string, isFile: bool, header: seq<string>)

  datatype State = State(
    schemaKey: nat,
    schemaNew: map<string, seq<string>>,
    files: seq<string>,
    schemaType: seq<string>,
    duplicateFiles: seq<string>)

  /** The state at import time. */
  const Initial: State := State(1, map[], [], [], [])

  /** The counter is at least 1, `schema_new` holds exactly the keys minted
      so far, and the classified files and their schema ids are aligned. */
  ghost predicate Invariant(s: State)
  {
    s.schemaKey >= 1 &&
    s.schemaNew.Keys == Minted(s.schemaKey) &&
    |s.files| == |s.schemaType|
  }

  lemma InitialInvariant()
    ensures Invariant(Initial)
  {
    assert Minted(1) == {};
  }

  /** `add_header_to_dict(header)`: the new state and the returned key. */
  function AddHeader(reg: Registry, s: State, header: seq<string>): (State, string)
  {
    match FirstMatch(reg, header)
    case Some(i) => (s, reg[i].0)
    case None =>
      var key := UnknownKey(s.schemaKey);
      (s.(schemaKey := s.schemaKey + 1, schemaNew := s.schemaNew[key := header]), key)
  }

  /** On a hit the key is the first matching registry key and nothing
      changes; on a miss the key is minted from the counter, the counter
      moves up by exactly one, the header is recorded under the fresh key,
      and no registry key or earlier entry of `schema_new` has that key. */
  lemma AddHeaderSpec(reg: Registry, s: State, header: seq<string>)
    requires NoProvisionalKeys(reg) && Invariant(s)
    ensures Invariant(AddHeader(reg, s, header).0)
    ensures FirstMatch(reg, header).Some? ==>
      AddHeader(reg, s, header) == (s, reg[FirstMatch(reg, header).value].0)
    ensures FirstMatch(reg, header).None? ==>
      var (t, key) := AddHeader(reg, s, header);
      key == UnknownKey(s.schemaKey) && key !in s.schemaNew && key !in Keys(reg) &&
      t.schemaKey == s.schemaKey + 1 && t.schemaNew == s.schemaNew[key := header] &&
      t.files == s.files && t.schemaType == s.schemaType && t.duplicateFiles == s.duplicateFiles
  {
    if FirstMatch(reg, header).None? {
      var key := UnknownKey(s.schemaKey);
      if key in s.schemaNew {
        var k :| 1 <= k < s.schemaKey && UnknownKey(k) == key;
        UnknownKeyInjective(k, s.schemaKey);
      }
      var t := AddHeader(reg, s, header).0;
      assert t.schemaNew.Keys == Minted(t.schemaKey) by {
        forall x | x in Minted(t.schemaKey) ensures x in t.schemaNew.Keys {
          var k :| 1 <= k < t.schemaKey && UnknownKey(k) == x;
          if k < s.schemaKey {
            assert x in Minted(s.schemaKey);
          }
        }
      }
    }
  }

  /** Only the registry is searched, never `schema_new`: an unknown header
      classified twice gets two different provisional keys. */
  lemma SameUnknownHeaderTwice(reg: Registry, s: State, header: seq<string>)
    requires FirstMatch(reg, header).None?
    ensures AddHeader(reg, AddHeader(reg, s, header).0, header).1 != AddHeader(reg, s, header).1
  {
    var t := AddHeader(reg, s, header).0;
    if AddHeader(reg, t, header).1 == AddHeader(reg, s, header).1 {
      UnknownKeyInjective(t.schemaKey, s.schemaKey);
    }
  }

  // ---------------------------------------------------------------------
  // get_csv_schema: the scan

  /** A walked path that is a regular file whose suffix passes the
      extension filter. */
  predicate IsCsvFile(f: ScannedFile)
  {
    f.isFile && PassesCsvFilter(Name(f.path))
  }

  /** One iteration of the scan loop. */
  function ScanStep(reg: Registry, s: State, f: ScannedFile): State
  {
    if !IsCsvFile(f) then s
    else if HeaderIsUnique(f.header) then
      var (t, key) := AddHeader(reg, s, f.header);
      t.(schemaType := t.schemaType + [key], files := t.files + [f.path])
    else s.(duplicateFiles := s.duplicateFiles + [f.path])
  }

  lemma ScanStepInvariant(reg: Registry, s: State, f: ScannedFile)
    requires NoProvisionalKeys(reg) && Invariant(s)
    ensures Invariant(ScanStep(reg, s, f))
  {
    if IsCsvFile(f) && HeaderIsUnique(f.header) {
      AddHeaderSpec(reg, s, f.header);
    }
  }

  /** The scan of `files` in walk order, starting from state `s`. */
  function Scan(reg: Registry, s: State, files: seq<ScannedFile>): State
  {
    if files == [] then s else ScanStep(reg, Scan(reg, s, files[..|files| - 1]), files[|files| - 1])
  }

  /** The paths of the scanned files that pass `keep`, in walk order. */
  function PathsWhere(files: seq<ScannedFile>, keep: ScannedFile -> bool): (r: seq<string>)
    ensures |r| <= |files|
  {
    if files == [] then []
    else PathsWhere(files[..|files| - 1], keep) + (if keep(files[|files| - 1]) then [files[|files| - 1].path] else [])
  }

  function CountWhere(files: seq<ScannedFile>, keep: ScannedFile -> bool): nat
  {
    if files == [] then 0 else CountWhere(files[..|files| - 1], keep) + (if keep(files[|files| - 1]) then 1 else 0)
  }

  predicate Classifiable(f: ScannedFile) { IsCsvFile(f) && HeaderIsUnique(f.header) }

  predicate HasRepeatedLabels(f: ScannedFile) { IsCsvFile(f) && !HeaderIsUnique(f.header) }

  /** The scan keeps the invariant, appends the CSV files with distinct
      labels to `flles` and the others to `files_with_duplicate_columns`, in
      walk order, so each CSV file lands in exactly one list and the two
      lists grow by the number of CSV files walked. */
  lemma {:induction false} ScanPartition(reg: Registry, s: State, files: seq<ScannedFile>)
    requires NoProvisionalKeys(reg) && Invariant(s)
    ensures Invariant(Scan(reg, s, files))
    ensures Scan(reg, s, files).files == s.files + PathsWhere(files, Classifiable)
    ensures Scan(reg, s, files).duplicateFiles == s.duplicateFiles + PathsWhere(files, HasRepeatedLabels)
    ensures |PathsWhere(files, Classifiable)| + |PathsWhere(files, HasRepeatedLabels)| == CountWhere(files, IsCsvFile)
  {
    if files != [] {
      var init, last := files[..|files| - 1], files[|files| - 1];
      ScanPartition(reg, s, init);
      var t := Scan(reg, s, init);
      assert Scan(reg, s, files) == ScanStep(reg, t, last);
      assert PathsWhere(files, Classifiable) == PathsWhere(init, Classifiable) + (if Classifiable(last) then [last.path] else []);
      assert PathsWhere(files, HasRepeatedLabels) == PathsWhere(init, HasRepeatedLabels) + (if HasRepeatedLabels(last) then [last.path] else []);
      assert CountWhere(files, IsCsvFile) == CountWhere(init, IsCsvFile) + (if IsCsvFile(last) then 1 else 0);
      if Classifiable(last) {
        AddHeaderSpec(reg, t, last.header);
      }
    }
  }

  /** Every schema id the scan appends is a registry key or a provisional
      key recorded in `schema_new`. */
  lemma {:induction false} ScanSchemaTypes(reg: Registry, s: State, files: seq<ScannedFile>)
    requires NoProvisionalKeys(reg) && Invariant(s)
    requires forall k :: 0 <= k < |s.schemaType| ==> s.schemaType[k] in Keys(reg) || s.schemaType[k] in s.schemaNew
    ensures forall k :: 0 <= k < |Scan(reg, s, files).schemaType| ==>
      Scan(reg, s, files).schemaType[k] in Keys(reg) || Scan(reg, s, files).schemaType[k] in Scan(reg, s, files).schemaNew
  {
    if files != [] {
      var init, last := files[..|files| - 1], files[|files| - 1];
      ScanSchemaTypes(reg, s, init);
      ScanPartition(reg, s, init);
      var t := Scan(reg, s, init);
      if Classifiable(last) {
        AddHeaderSpec(reg, t, last.header);
        var (u, key) := AddHeader(reg, t, last.header);
        assert key in Keys(reg) || key in u.schemaNew;
        assert forall k :: 0 <= k < |t.schemaType| ==> t.schemaType[k] in Keys(reg) || t.schemaType[k] in u.schemaNew;
      }
    }
  }

  // ---------------------------------------------------------------------
  // The stateful classifier

  class Classifier {
    /** The registry the module reads at import time. */
    const registry: Registry
    var schemaKey: nat
    var schemaNew: map<string, seq<string>>
    var files: seq<string>
    var schemaType: seq<string>
    var duplicateFiles: seq<string>

    function Snapshot(): State
      reads this
    {
      State(schemaKey, schemaNew, files, schemaType, duplicateFiles)
    }

    ghost predicate Valid()
      reads this
    {
      NoProvisionalKeys(registry) && Invariant(Snapshot())
    }

    /** The globals as the module initialises them. */
    constructor()
      ensures registry == LookupSchema
      ensures Snapshot() == Initial
      ensures Valid()
    {
      registry := LookupSchema;
      schemaKey := 1;
      schemaNew := map[];
      files := [];
      schemaType := [];
      duplicateFiles := [];
      InitialInvariant();
      LookupSchemaHasNoProvisionalKeys();
    }

    /** `add_header_to_dict`: searches the registry in order and returns the
        first key whose signature sorts equal to the header; otherwise mints
        a provisional key and records the header under it. */
    method AddHeaderToDict(header: seq<string>) returns (key: string)
      requires Valid()
      modifies this
      ensures Valid()
      ensures (Snapshot(), key) == AddHeader(registry, old(Snapshot()), header)
    {
      ghost var expected := AddHeader(registry, Snapshot(), header);
      AddHeaderSpec(registry, Snapshot(), header);
      var i := 0;
      while i < |registry|
        invariant 0 <= i <= |registry|
        invariant FirstMatchFrom(registry, header, i) == FirstMatch(registry, header)
      {
        if multiset(registry[i].1.Entries()) == multiset(header) {
          assert FirstMatch(registry, header) == Some(i);
          key := registry[i].0;
          return;
        }
        i := i + 1;
      }
      assert FirstMatch(registry, header) == None;
      key := UnknownKey(schemaKey);
      schemaKey := schemaKey + 1;
      schemaNew := schemaNew[key := header];
      assert Snapshot() == expected.0;
    }

    /** One iteration of `get_csv_schema`'s loop: a CSV file with distinct
        labels is classified, one with repeated labels is set aside, and
        any other path is skipped. */
    method ScanOne(f: ScannedFile)
      requires Valid()
      modifies this
      ensures Valid()
      ensures Snapshot() == ScanStep(registry, old(Snapshot()), f)
    {
      ghost var before := Snapshot();
      if IsCsvFile(f) {
        if HeaderIsUnique(f.header) {
          var key := AddHeaderToDict(f.header);
          schemaType := schemaType + [key];
          files := files + [f.path];
        } else {
          duplicateFiles := duplicateFiles + [f.path];
        }
      }
      assert Snapshot() == ScanStep(registry, before, f);
      ScanStepInvariant(registry, before, f);
    }

    /** `get_csv_schema` over the walked paths, in walk order: returns the
        classified files, their schema ids and the provisional schemas. */
    method GetCsvSchema(scan: seq<ScannedFile>) returns (fileNames: seq<string>, schemaTypes: seq<string>, newSchemas: map<string, seq<string>>)
      requires Valid()
      modifies this
      ensures Valid()
      ensures Snapshot() == Scan(registry, old(Snapshot()), scan)
      ensures fileNames == files && schemaTypes == schemaType && newSchemas == schemaNew
    {
      ghost var start := Snapshot();
      var i := 0;
      while i < |scan|
        invariant 0 <= i <= |scan|
        invariant Valid()
        invariant Snapshot() == Scan(registry, start, scan[..i])
      {
        assert scan[..i + 1][..i] == scan[..i];
        ScanOne(scan[i]);
        i := i + 1;
      }
      assert scan[..i] == scan;
      fileNames, schemaTypes, newSchemas := files, schemaType, schemaNew;
    }
  }
}
