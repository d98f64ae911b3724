/**
 Updates of a task in the configuration file. The form sends flat fields, the file keeps them
 in six sections: a task is flattened, overlaid with the update, rebuilt, and merged back.
 */
module TaskUpdate {
  import opened Wrappers

  datatype Section = Monitor | Etl | Table | ErrorHandling | Archive | Schedule

  datatype Field =
    | FolderPath | FileExtensions | Recursive | DebounceSeconds | StabilityCheckInterval | StabilityCheckCount
    | ExtractorName | Encoding | BatchSize | TransformerModule | TransformerFunction | SandboxTimeout
    | BaseTable | PartitionField | PartitionFieldFormat | CreateTableTemplate | RetentionMonths | ArchiveOldTables
    | MaxRetries | DeadLetterDir
    | Mode | ArchiveDir | CompressAfterDays | CleanupAfterDays
    | PollInterval | PollIncremental

  function SectionOf(f: Field): Section {
    match f
    case FolderPath => Monitor case FileExtensions => Monitor case Recursive => Monitor
    case DebounceSeconds => Monitor case StabilityCheckInterval => Monitor case StabilityCheckCount => Monitor
    case ExtractorName => Etl case Encoding => Etl case BatchSize => Etl
    case TransformerModule => Etl case TransformerFunction => Etl case SandboxTimeout => Etl
    case BaseTable => Table case PartitionField => Table case PartitionFieldFormat => Table
    case CreateTableTemplate => Table case RetentionMonths => Table case ArchiveOldTables => Table
    case MaxRetries => ErrorHandling case DeadLetterDir => ErrorHandling
    case Mode => Archive case ArchiveDir => Archive case CompressAfterDays => Archive case CleanupAfterDays => Archive
    case PollInterval => Schedule case PollIncremental => Schedule
  }

  /**
   A dict key, one value per spelling. Two fields are spelled differently in the form and in
   their section; Common is the spelling of a field that is the same in both places.
   */
  datatype Key =
    | SectionKey(section: Section)
    | TaskId | Name | Enabled | Priority
    | FolderPathKey | MonitorFolderKey
    | ModeKey | ArchiveModeKey
    | Common(field: Field)
    | Other(name: string)

  function FlatKey(f: Field): Key {
    match f case FolderPath => MonitorFolderKey case Mode => ArchiveModeKey case _ => Common(f)
  }

  function InnerKey(f: Field): Key {
    match f case FolderPath => FolderPathKey case Mode => ModeKey case _ => Common(f)
  }

  /** The field with this spelling inside its section. */
  function FieldOf(k: Key): Option<Field> {
    match k
    case FolderPathKey => Some(FolderPath)
    case ModeKey => Some(Mode)
    case Common(f) => if f == FolderPath || f == Mode then None else Some(f)
    case _ => None
  }

  /** The field with this spelling in the form. */
  function FlatFieldOf(k: Key): Option<Field> {
    match k
    case MonitorFolderKey => Some(FolderPath)
    case ArchiveModeKey => Some(Mode)
    case Common(f) => if f == FolderPath || f == Mode then None else Some(f)
    case _ => None
  }

  predicate Known(k: Key, s: Section) {
    FieldOf(k).Some? && SectionOf(FieldOf(k).value) == s
  }

  function FlatKeys(): (keys: set<Key>)
    ensures forall k :: k in keys <==> FlatFieldOf(k).Some?
  {
    assert forall k :: FlatFieldOf(k).Some? ==> FlatKey(FlatFieldOf(k).value) == k;
    set f: Field | true :: FlatKey(f)
  }

  function InnerKeys(s: Section): (keys: set<Key>)
    ensures forall k :: k in keys <==> Known(k, s)
  {
    assert forall k :: FieldOf(k).Some? ==> InnerKey(FieldOf(k).value) == k;
    set f: Field | SectionOf(f) == s :: InnerKey(f)
  }

  function SectionKeys(): (keys: set<Key>)
    ensures forall k :: k in keys <==> k.SectionKey?
  {
    set s: Section | true :: SectionKey(s)
  }

  /** Any JSON value; an atom is one that is not a dict, given by its text. */
  datatype Json = Atom(text: string) | Dict(entries: map<Key, Json>)

  type Dictionary = map<Key, Json>

  /** The default of every field. What is proved here does not depend on it. */
  type Defaults = Field -> Json

  function SourceDefault(f: Field): Json {
    Atom(match f
         case FolderPath => "." case FileExtensions => "['.csv']" case Recursive => "false"
         case DebounceSeconds => "3" case StabilityCheckInterval => "1" case StabilityCheckCount => "3"
         case ExtractorName => "csv" case Encoding => "auto" case BatchSize => "1000"
         case TransformerModule => "" case TransformerFunction => "" case SandboxTimeout => "30"
         case BaseTable => "data" case PartitionField => "" case PartitionFieldFormat => "%Y-%m-%d"
         case CreateTableTemplate => "" case RetentionMonths => "12" case ArchiveOldTables => "true"
         case MaxRetries => "3" case DeadLetterDir => ""
         case Mode => "keep" case ArchiveDir => "" case CompressAfterDays => "0" case CleanupAfterDays => "0"
         case PollInterval => "60" case PollIncremental => "true")
  }

  /** The fields that an old-style task may also keep at its top level. */
  predicate HasFlatFallback(f: Field) {
    f in {FolderPath, FileExtensions, Recursive, ExtractorName, BatchSize, BaseTable, MaxRetries, PollInterval}
  }

  function GetOr(d: Dictionary, k: Key, default: Json): Json {
    if k in d then d[k] else default
  }

  function DeepMerge(base: Json, updates: Json): Json
    decreases updates
  {
    if base.Dict? && updates.Dict? then
      Dict(map k | k in base.entries.Keys + updates.entries.Keys ::
             if k !in updates.entries then base.entries[k]
             else if k in base.entries then DeepMerge(base.entries[k], updates.entries[k])
             else updates.entries[k])
    else updates
  }

  /** The section of a task, {} if it has none. */
  function SectionDict(task: Dictionary, s: Section): Dictionary {
    if SectionKey(s) in task && task[SectionKey(s)].Dict? then task[SectionKey(s)].entries else map[]
  }

  function FlatValue(d: Defaults, task: Dictionary, f: Field): Json {
    var section := SectionDict(task, SectionOf(f));
    if InnerKey(f) in section then section[InnerKey(f)]
    else if HasFlatFallback(f) then GetOr(task, FlatKey(f), d(f))
    else d(f)
  }

  function Flatten(d: Defaults, task: Dictionary): Dictionary {
    task + map k | k in FlatKeys() :: FlatValue(d, task, FlatFieldOf(k).value)
  }

  function BuildSection(d: Defaults, data: Dictionary, s: Section): Dictionary {
    map k | k in InnerKeys(s) :: GetOr(data, FlatKey(FieldOf(k).value), d(FieldOf(k).value))
  }

  function BuildSections(d: Defaults, data: Dictionary): Dictionary {
    map k | k in SectionKeys() :: Dict(BuildSection(d, data, k.section))
  }

  function BuildTop(data: Dictionary): Dictionary {
    map[TaskId := GetOr(data, TaskId, Atom("")),
        Name := GetOr(data, Name, GetOr(data, TaskId, Atom(""))),
        Enabled := GetOr(data, Enabled, Atom("true")),
        Priority := GetOr(data, Priority, Atom("1"))]
  }

  function Build(d: Defaults, data: Dictionary): Dictionary {
    BuildSections(d, data) + BuildTop(data)
  }

  function MergeSections(d: Defaults, existing: Dictionary, updates: Dictionary): Dictionary {
    var rebuilt := BuildSections(d, Flatten(d, existing) + updates);
    map k | k in SectionKeys() :: DeepMerge(Dict(SectionDict(existing, k.section)), rebuilt[k])
  }

  function MergeTop(existing: Dictionary, updates: Dictionary): Dictionary {
    DeepMerge(Dict(existing), Dict(updates)).entries
  }

  function Identity(updates: Dictionary): Dictionary {
    map k | k in {TaskId, Name, Enabled, Priority} && k in updates :: updates[k]
  }

  function MergeUpdate(d: Defaults, existing: Dictionary, updates: Dictionary): Dictionary
    requires TaskId in existing
  {
    (MergeTop(existing, updates) + MergeSections(d, existing, updates) + Identity(updates))[TaskId := existing[TaskId]]
  }

  /** A section, if there is one, is a dict, and the task has an id. */
  predicate WellFormed(task: Dictionary) {
    TaskId in task && forall s: Section :: SectionKey(s) in task ==> task[SectionKey(s)].Dict?
  }

  /** What the form sends: no dicts, and no section names. */
  predicate Flat(updates: Dictionary) {
    forall k :: k in updates ==> updates[k].Atom? && !k.SectionKey?
  }

  // ---------------------------------------------------------------- what an update does

  lemma {:induction false} MergeWithItself(j: Json)
    ensures DeepMerge(j, j) == j
    decreases j
  {
    if j.Dict? {
      forall k | k in j.entries ensures DeepMerge(j.entries[k], j.entries[k]) == j.entries[k] {
        MergeWithItself(j.entries[k]);
      }
      assert DeepMerge(j, j).entries == j.entries;
    }
  }

  /** What stands at a path of keys. */
  function At(j: Json, path: seq<Key>): Option<Json>
    decreases |path|
  {
    if path == [] then Some(j)
    else if j.Dict? && path[0] in j.entries then At(j.entries[path[0]], path[1..])
    else None
  }

  /** The updates end before the path does, by not having its next key. */
  predicate Untouched(updates: Json, path: seq<Key>)
    decreases |path|
  {
    path != [] && updates.Dict?
    && (path[0] !in updates.entries || Untouched(updates.entries[path[0]], path[1..]))
  }

  /** However deep, every value of the updates is taken over. */
  lemma {:induction false} MergeTakesUpdates(base: Json, updates: Json, path: seq<Key>)
    requires At(updates, path).Some? && At(updates, path).value.Atom?
    ensures At(DeepMerge(base, updates), path) == At(updates, path)
    decreases |path|
  {
    if path != [] {
      var k := path[0];
      if base.Dict? && k in base.entries {
        MergeTakesUpdates(base.entries[k], updates.entries[k], path[1..]);
      }
    }
  }

  /** And everything else stays, however deep, so that unedited nested fields are not overwritten. */
  lemma {:induction false} MergeKeepsRest(base: Json, updates: Json, path: seq<Key>)
    requires At(base, path).Some? && Untouched(updates, path)
    ensures At(DeepMerge(base, updates), path) == At(base, path)
    decreases |path|
  {
    var k := path[0];
    if k in updates.entries {
      MergeKeepsRest(base.entries[k], updates.entries[k], path[1..]);
    }
  }

  /** A task made from a form: every submitted field is in its section, and the top level is as submitted. */
  lemma SubmittedIsBuilt(d: Defaults, data: Dictionary, f: Field, k: Key)
    ensures FlatKey(f) in data ==>
      InnerKey(f) in SectionDict(Build(d, data), SectionOf(f))
      && SectionDict(Build(d, data), SectionOf(f))[InnerKey(f)] == data[FlatKey(f)]
    ensures k in {TaskId, Name, Enabled, Priority} && k in data ==> k in Build(d, data) && Build(d, data)[k] == data[k]
  {
    FieldsAndKeys(f);
    BuiltSections(d, data, SectionOf(f));
    assert Known(InnerKey(f), SectionOf(f));
  }

  /** An old-style task keeps these eight fields at its top level, and no other field is read from there. */
  lemma OldStyleFieldIsReadIff(d: Defaults, task: Dictionary, f: Field)
    requires InnerKey(f) !in SectionDict(task, SectionOf(f))
    requires FlatKey(f) in task && task[FlatKey(f)] != d(f)
    ensures FlatValue(d, task, f) == task[FlatKey(f)] <==>
      f in {FolderPath, FileExtensions, Recursive, ExtractorName, BatchSize, BaseTable, MaxRetries, PollInterval}
  {
  }

  /** The value of a field after an update: the submitted one, or the one it had. */
  function Updated(d: Defaults, task: Dictionary, updates: Dictionary, f: Field): Json {
    GetOr(updates, FlatKey(f), FlatValue(d, task, f))
  }

  /** A section after an update: every known field has its updated value, all else is as before. */
  ghost predicate SectionIsUpdated(
      d: Defaults, task: Dictionary, updates: Dictionary, s: Section, section: Dictionary)
  {
    && (forall k :: k in section <==> k in SectionDict(task, s) || Known(k, s))
    && (forall k :: k in section ==>
          section[k] == if Known(k, s) then Updated(d, task, updates, FieldOf(k).value) else SectionDict(task, s)[k])
  }

  lemma FieldsAndKeys(f: Field)
    ensures FieldOf(InnerKey(f)) == Some(f)
    ensures FlatFieldOf(FlatKey(f)) == Some(f)
  {
  }

  lemma BuiltSection(d: Defaults, task: Dictionary, updates: Dictionary, s: Section, k: Key)
    ensures var built := BuildSection(d, Flatten(d, task) + updates, s);
      && (k in built <==> Known(k, s))
      && (Known(k, s) ==> built[k] == Updated(d, task, updates, FieldOf(k).value))
  {
    if Known(k, s) {
      FieldsAndKeys(FieldOf(k).value);
    }
  }

  lemma MergedSectionAt(d: Defaults, task: Dictionary, updates: Dictionary, s: Section, k: Key)
    ensures var section := SectionDict(task, s);
      var merged := DeepMerge(Dict(section), Dict(BuildSection(d, Flatten(d, task) + updates, s))).entries;
      && (k in merged <==> k in section || Known(k, s))
      && (k in section && !Known(k, s) ==> merged[k] == section[k])
      && (k !in section && Known(k, s) ==> merged[k] == Updated(d, task, updates, FieldOf(k).value))
      && (k in section && Known(k, s) ==>
            merged[k] == DeepMerge(section[k], Updated(d, task, updates, FieldOf(k).value)))
  {
    BuiltSection(d, task, updates, s, k);
  }

  lemma MergedValue(d: Defaults, task: Dictionary, updates: Dictionary, s: Section, k: Key)
    requires Flat(updates) && Known(k, s) && k in SectionDict(task, s)
    ensures var v := Updated(d, task, updates, FieldOf(k).value);
      DeepMerge(SectionDict(task, s)[k], v) == v
  {
    var f := FieldOf(k).value;
    FieldsAndKeys(f);
    if FlatKey(f) !in updates {
      assert InnerKey(f) == k;
      MergeWithItself(SectionDict(task, s)[k]);
    }
  }

  lemma MergedSection(d: Defaults, task: Dictionary, updates: Dictionary, s: Section)
    requires Flat(updates)
    ensures SectionIsUpdated(d, task, updates, s,
              DeepMerge(Dict(SectionDict(task, s)), Dict(BuildSection(d, Flatten(d, task) + updates, s))).entries)
  {
    forall k {:trigger Known(k, s)}
      ensures var built := BuildSection(d, Flatten(d, task) + updates, s);
        var merged := DeepMerge(Dict(SectionDict(task, s)), Dict(built)).entries;
        && (k in merged <==> k in SectionDict(task, s) || Known(k, s))
        && (k in merged ==> merged[k] == if Known(k, s) then Updated(d, task, updates, FieldOf(k).value)
                                         else SectionDict(task, s)[k])
    {
      MergedSectionAt(d, task, updates, s, k);
      if Known(k, s) && k in SectionDict(task, s) {
        MergedValue(d, task, updates, s, k);
      }
    }
  }

  /** The whole effect of a flat update on a task. */
  ghost predicate IsUpdate(d: Defaults, task: Dictionary, updates: Dictionary, after: Dictionary) {
    && (forall k :: k in after <==> k in task || k in updates || k.SectionKey?)
    && (forall k :: k in after && !k.SectionKey? ==>
          after[k] == if k == TaskId then GetOr(task, k, Atom("")) else GetOr(updates, k, GetOr(task, k, Atom(""))))
    && (forall s :: SectionKey(s) in after ==>
          after[SectionKey(s)].Dict? && SectionIsUpdated(d, task, updates, s, after[SectionKey(s)].entries))
  }

  lemma MergedSectionsAt(d: Defaults, task: Dictionary, updates: Dictionary, s: Section)
    ensures var sections := MergeSections(d, task, updates);
      SectionKey(s) in sections && sections[SectionKey(s)]
        == DeepMerge(Dict(SectionDict(task, s)), Dict(BuildSection(d, Flatten(d, task) + updates, s)))
  {
    assert SectionKey(s) in SectionKeys();
  }

  lemma MergeUpdateSection(d: Defaults, task: Dictionary, updates: Dictionary, s: Section)
    requires TaskId in task
    ensures var after := MergeUpdate(d, task, updates);
      SectionKey(s) in after && after[SectionKey(s)]
        == DeepMerge(Dict(SectionDict(task, s)), Dict(BuildSection(d, Flatten(d, task) + updates, s)))
  {
    MergedSectionsAt(d, task, updates, s);
    assert SectionKey(s) !in Identity(updates);
  }

  lemma MergeTopAt(task: Dictionary, updates: Dictionary, k: Key)
    requires Flat(updates)
    ensures k in MergeTop(task, updates) <==> k in task || k in updates
    ensures k in MergeTop(task, updates) ==> MergeTop(task, updates)[k] == GetOr(updates, k, GetOr(task, k, Atom("")))
  {
    if k in updates && k in task {
      assert updates[k].Atom?;
      assert DeepMerge(task[k], updates[k]) == updates[k];
    }
  }

  lemma MergeUpdateTop(d: Defaults, task: Dictionary, updates: Dictionary, k: Key)
    requires TaskId in task && Flat(updates) && !k.SectionKey?
    ensures var after := MergeUpdate(d, task, updates);
      && (k in after <==> k in task || k in updates)
      && (k in after ==>
            after[k] == if k == TaskId then GetOr(task, k, Atom("")) else GetOr(updates, k, GetOr(task, k, Atom(""))))
  {
    MergeTopAt(task, updates, k);
    assert k !in MergeSections(d, task, updates);
    assert k in Identity(updates) ==> k in updates && Identity(updates)[k] == updates[k];
  }

  lemma MergeIsUpdate(d: Defaults, task: Dictionary, updates: Dictionary)
    requires TaskId in task && Flat(updates)
    ensures IsUpdate(d, task, updates, MergeUpdate(d, task, updates))
  {
    var after := MergeUpdate(d, task, updates);
    forall k ensures k in after <==> k in task || k in updates || k.SectionKey? {
      if k.SectionKey? {
        MergeUpdateSection(d, task, updates, k.section);
      } else {
        MergeUpdateTop(d, task, updates, k);
      }
    }
    forall k | k in after && !k.SectionKey?
      ensures after[k] == if k == TaskId then GetOr(task, k, Atom("")) else GetOr(updates, k, GetOr(task, k, Atom("")))
    {
      MergeUpdateTop(d, task, updates, k);
    }
    forall s | SectionKey(s) in after
      ensures after[SectionKey(s)].Dict? && SectionIsUpdated(d, task, updates, s, after[SectionKey(s)].entries)
    {
      MergeUpdateSection(d, task, updates, s);
      MergedSection(d, task, updates, s);
    }
  }

  lemma SectionIsUnique(d: Defaults, task: Dictionary, updates: Dictionary, s: Section, a: Dictionary, b: Dictionary)
    requires SectionIsUpdated(d, task, updates, s, a) && SectionIsUpdated(d, task, updates, s, b)
    ensures a == b
  {
    forall k ensures k in a <==> k in b {
    }
    assert a.Keys == b.Keys;
  }

  lemma UpdateIsUnique(d: Defaults, task: Dictionary, updates: Dictionary, a: Dictionary, b: Dictionary)
    requires IsUpdate(d, task, updates, a) && IsUpdate(d, task, updates, b)
    ensures a == b
  {
    assert a.Keys == b.Keys;
    forall k | k in a ensures a[k] == b[k] {
      if k.SectionKey? {
        assert a[SectionKey(k.section)].Dict? && b[SectionKey(k.section)].Dict?;
        SectionIsUnique(d, task, updates, k.section, a[k].entries, b[k].entries);
      }
    }
  }

  lemma FieldAfterUpdate(d: Defaults, task: Dictionary, updates: Dictionary, after: Dictionary, f: Field)
    requires IsUpdate(d, task, updates, after)
    ensures FlatValue(d, after, f) == Updated(d, task, updates, f)
  {
    var s := SectionOf(f);
    FieldsAndKeys(f);
    assert SectionKey(s) in after && after[SectionKey(s)].Dict?;
    assert Known(InnerKey(f), s);
  }

  lemma SectionComposes(d: Defaults, task: Dictionary, first: Dictionary, second: Dictionary,
                        mid: Dictionary, s: Section, section: Dictionary)
    requires IsUpdate(d, task, first, mid) && SectionIsUpdated(d, mid, second, s, section)
    ensures SectionIsUpdated(d, task, first + second, s, section)
  {
    assert SectionKey(s) in mid && mid[SectionKey(s)].Dict?;
    forall k | k in section && Known(k, s)
      ensures section[k] == Updated(d, task, first + second, FieldOf(k).value)
    {
      FieldAfterUpdate(d, task, first, mid, FieldOf(k).value);
    }
  }

  lemma UpdateComposes(d: Defaults, task: Dictionary, first: Dictionary, second: Dictionary,
                       mid: Dictionary, after: Dictionary)
    requires IsUpdate(d, task, first, mid) && IsUpdate(d, mid, second, after)
    ensures IsUpdate(d, task, first + second, after)
  {
    forall s | SectionKey(s) in after
      ensures SectionIsUpdated(d, task, first + second, s, after[SectionKey(s)].entries)
    {
      SectionComposes(d, task, first, second, mid, s, after[SectionKey(s)].entries);
    }
  }

  lemma IdStays(d: Defaults, task: Dictionary, updates: Dictionary)
    requires TaskId in task
    ensures TaskId in MergeUpdate(d, task, updates) && MergeUpdate(d, task, updates)[TaskId] == task[TaskId]
  {
  }

  lemma FlatTogether(first: Dictionary, second: Dictionary)
    requires Flat(first) && Flat(second)
    ensures Flat(first + second)
  {
  }

  lemma UpdatesComposeTo(d: Defaults, task: Dictionary, first: Dictionary, second: Dictionary, both: Dictionary)
    requires TaskId in task && Flat(first) && Flat(second) && both == first + second
    ensures TaskId in MergeUpdate(d, task, first)
    ensures MergeUpdate(d, MergeUpdate(d, task, first), second) == MergeUpdate(d, task, both)
  {
    IdStays(d, task, first);
    var mid := MergeUpdate(d, task, first);
    MergeIsUpdate(d, task, first);
    MergeIsUpdate(d, mid, second);
    FlatTogether(first, second);
    MergeIsUpdate(d, task, both);
    UpdateComposes(d, task, first, second, mid, MergeUpdate(d, mid, second));
    UpdateIsUnique(d, task, both, MergeUpdate(d, mid, second), MergeUpdate(d, task, both));
  }

  /** The updates act on tasks: one after the other is the same as both at once, the later winning. */
  lemma UpdatesCompose(task: Dictionary, first: Dictionary, second: Dictionary)
    requires WellFormed(task) && Flat(first) && Flat(second)
    ensures TaskId in MergeUpdate(SourceDefault, task, first)
    ensures MergeUpdate(SourceDefault, MergeUpdate(SourceDefault, task, first), second)
         == MergeUpdate(SourceDefault, task, first + second)
  {
    UpdatesComposeTo(SourceDefault, task, first, second, first + second);
  }

  /** So repeating an update changes nothing. */
  lemma UpdateIsIdempotent(d: Defaults, task: Dictionary, updates: Dictionary)
    requires WellFormed(task) && Flat(updates)
    ensures TaskId in MergeUpdate(d, task, updates)
    ensures MergeUpdate(d, MergeUpdate(d, task, updates), updates) == MergeUpdate(d, task, updates)
  {
    assert updates == updates + updates;
    UpdatesComposeTo(d, task, updates, updates, updates);
  }

  /** What was not submitted survives, in the sections and outside, and the id never changes. */
  lemma UnsubmittedSurvives(d: Defaults, task: Dictionary, updates: Dictionary, f: Field, s: Section, k: Key)
    requires WellFormed(task) && Flat(updates)
    ensures var after := MergeUpdate(d, task, updates);
      && TaskId in after && after[TaskId] == task[TaskId]
      && FlatValue(d, after, f) == GetOr(updates, FlatKey(f), FlatValue(d, task, f))
      && (k in SectionDict(task, s) && !Known(k, s) ==>
            k in SectionDict(after, s) && SectionDict(after, s)[k] == SectionDict(task, s)[k])
      && (k in task && k !in updates && !k.SectionKey? ==> k in after && after[k] == task[k])
  {
    var after := MergeUpdate(d, task, updates);
    IdStays(d, task, updates);
    MergeIsUpdate(d, task, updates);
    Survives(d, task, updates, after, f, s, k);
  }

  lemma Survives(d: Defaults, task: Dictionary, updates: Dictionary, after: Dictionary, f: Field, s: Section, k: Key)
    requires IsUpdate(d, task, updates, after)
    ensures FlatValue(d, after, f) == GetOr(updates, FlatKey(f), FlatValue(d, task, f))
    ensures k in SectionDict(task, s) && !Known(k, s) ==>
      k in SectionDict(after, s) && SectionDict(after, s)[k] == SectionDict(task, s)[k]
    ensures k in task && k !in updates && !k.SectionKey? ==> k in after && after[k] == task[k]
  {
    FieldAfterUpdate(d, task, updates, after, f);
    assert SectionKey(s) in after && after[SectionKey(s)].Dict?;
  }

  lemma FlattenAt(d: Defaults, task: Dictionary, f: Field)
    ensures FlatKey(f) in Flatten(d, task) && Flatten(d, task)[FlatKey(f)] == FlatValue(d, task, f)
  {
    FieldsAndKeys(f);
  }

  lemma RebuiltAt(d: Defaults, task: Dictionary, data: Dictionary, s: Section, k: Key)
    requires SectionDict(task, s) == BuildSection(d, data, s) && Known(k, s)
    ensures var a, b := BuildSection(d, Flatten(d, task), s), BuildSection(d, data, s);
      k in a && k in b && a[k] == b[k]
  {
    var f := FieldOf(k).value;
    FieldsAndKeys(f);
    FlattenAt(d, task, f);
    assert InnerKey(f) == k && k in SectionDict(task, s);
  }

  lemma RebuiltSection(d: Defaults, task: Dictionary, data: Dictionary, s: Section)
    requires SectionDict(task, s) == BuildSection(d, data, s)
    ensures BuildSection(d, Flatten(d, task), s) == BuildSection(d, data, s)
  {
    var a, b := BuildSection(d, Flatten(d, task), s), BuildSection(d, data, s);
    forall k ensures k in a <==> k in b {
      assert k in InnerKeys(s) <==> Known(k, s);
    }
    forall k | k in a ensures k in b && a[k] == b[k] {
      RebuiltAt(d, task, data, s, k);
    }
    SameEntries(a, b);
  }

  lemma SameEntries(a: Dictionary, b: Dictionary)
    requires forall k :: k in a <==> k in b
    requires forall k :: k in a ==> a[k] == b[k]
    ensures a == b
  {
    assert a.Keys == b.Keys;
  }

  lemma FlattenKeeps(d: Defaults, task: Dictionary, k: Key, v: Json)
    requires k in task && task[k] == v && FlatFieldOf(k).None?
    ensures k in Flatten(d, task) && Flatten(d, task)[k] == v
  {
  }

  lemma TopIsRebuilt(d: Defaults, task: Dictionary, data: Dictionary)
    requires forall k :: k in BuildTop(data) ==> k in task && task[k] == BuildTop(data)[k]
    ensures BuildTop(Flatten(d, task)) == BuildTop(data)
  {
    var top := BuildTop(data);
    FlattenKeeps(d, task, TaskId, top[TaskId]);
    FlattenKeeps(d, task, Name, top[Name]);
    FlattenKeeps(d, task, Enabled, top[Enabled]);
    FlattenKeeps(d, task, Priority, top[Priority]);
  }

  lemma SectionsAreRebuilt(d: Defaults, task: Dictionary, data: Dictionary)
    requires forall s :: SectionDict(task, s) == BuildSection(d, data, s)
    ensures BuildSections(d, Flatten(d, task)) == BuildSections(d, data)
  {
    forall s: Section ensures BuildSection(d, Flatten(d, task), s) == BuildSection(d, data, s) {
      RebuiltSection(d, task, data, s);
    }
  }

  lemma BuiltSections(d: Defaults, data: Dictionary, s: Section)
    ensures SectionDict(Build(d, data), s) == BuildSection(d, data, s)
  {
    assert SectionKey(s) in SectionKeys() && SectionKey(s) !in BuildTop(data);
  }

  /** Rebuilding a flattened task that was built gives it back. */
  lemma BuildFlattenBuild(d: Defaults, data: Dictionary)
    ensures Build(d, Flatten(d, Build(d, data))) == Build(d, data)
  {
    var task := Build(d, data);
    TopIsRebuilt(d, task, data);
    forall s ensures SectionDict(task, s) == BuildSection(d, data, s) {
      BuiltSections(d, data, s);
    }
    SectionsAreRebuilt(d, task, data);
  }
}
