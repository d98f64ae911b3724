/**
 What a task in the configuration file means once it is loaded, and whether an update through
 the web form keeps that meaning. The loader has its own defaults for missing fields, and they
 are not all the ones the form builder writes into the file.
 */
module RuntimeTask {
  import opened Wrappers
  import opened TaskUpdate

  /**
   What the loader takes for a field that its section lacks. None: such a task is not loaded,
   because the validator requires the field.
   */
  function LoadDefault(f: Field): Option<Json> {
    if IsRequired(f) then None
    else
      match f
      case RetentionMonths => Some(Atom("0"))
      case Mode => Some(Atom("move"))
      case CompressAfterDays => Some(Atom("7"))
      case CleanupAfterDays => Some(Atom("90"))
      case PollInterval => Some(Atom("0"))
      case _ => Some(SourceDefault(f))
  }

  predicate IsRequired(f: Field) {
    f in {FolderPath, FileExtensions, ExtractorName, TransformerModule, TransformerFunction,
          BaseTable, PartitionField, CreateTableTemplate, DeadLetterDir}
  }

  /** The fields with a default in the loader that is not the one of the form builder. */
  predicate DefaultsDiffer(f: Field) {
    f in {RetentionMonths, Mode, CompressAfterDays, CleanupAfterDays, PollInterval}
  }

  /** The value of a field in the loaded task. The loader looks at the sections alone. */
  function Loaded(task: Dictionary, f: Field): Option<Json> {
    var section := SectionDict(task, SectionOf(f));
    if InnerKey(f) in section then Some(section[InnerKey(f)]) else LoadDefault(f)
  }

  predicate IsExplicit(task: Dictionary, f: Field) {
    InnerKey(f) in SectionDict(task, SectionOf(f))
  }

  lemma LoadedAfterUpdate(d: Defaults, task: Dictionary, updates: Dictionary, f: Field)
    requires WellFormed(task) && Flat(updates)
    ensures var after := MergeUpdate(d, task, updates);
      IsExplicit(after, f) && Loaded(after, f) == Some(Updated(d, task, updates, f))
  {
    var after := MergeUpdate(d, task, updates);
    MergeIsUpdate(d, task, updates);
    SectionHoldsField(d, task, updates, after, f);
    FieldAfterUpdate(d, task, updates, after, f);
  }

  lemma SectionHoldsField(d: Defaults, task: Dictionary, updates: Dictionary, after: Dictionary, f: Field)
    requires IsUpdate(d, task, updates, after)
    ensures IsExplicit(after, f)
  {
    FieldsAndKeys(f);
    assert SectionKey(SectionOf(f)) in after && Known(InnerKey(f), SectionOf(f));
  }

  /**
   A field that was not submitted keeps its meaning iff its section held it, or the loader's
   default for it is what the form builder fills in.
   */
  lemma MeaningIsKeptIff(d: Defaults, task: Dictionary, updates: Dictionary, f: Field)
    requires WellFormed(task) && Flat(updates) && FlatKey(f) !in updates
    ensures Loaded(MergeUpdate(d, task, updates), f) == Loaded(task, f)
       <==> IsExplicit(task, f) || LoadDefault(f) == Some(FlatValue(d, task, f))
  {
    LoadedAfterUpdate(d, task, updates, f);
  }

  lemma DefaultsDifferOn(f: Field)
    ensures LoadDefault(f).Some? && LoadDefault(f) != Some(SourceDefault(f)) <==> DefaultsDiffer(f)
  {
    assert SourceDefault(Mode).text[0] == 'k';
  }

  /** A task in the nested form, without the top-level fields of the old one. */
  predicate Nested(task: Dictionary) {
    forall f: Field :: HasFlatFallback(f) ==> FlatKey(f) !in task
  }

  /** The fields that a nested, loadable task has to spell out so that an update of others leaves them alone. */
  predicate SpelledOut(task: Dictionary) {
    forall f: Field :: DefaultsDiffer(f) ==> IsExplicit(task, f)
  }

  predicate Loadable(task: Dictionary) {
    forall f: Field :: Loaded(task, f).Some?
  }

  lemma NestedFieldIsKeptIff(task: Dictionary, updates: Dictionary, f: Field)
    requires WellFormed(task) && Flat(updates) && FlatKey(f) !in updates
    requires Nested(task) && Loadable(task)
    ensures Loaded(MergeUpdate(SourceDefault, task, updates), f) == Loaded(task, f)
       <==> (DefaultsDiffer(f) ==> IsExplicit(task, f))
  {
    MeaningIsKeptIff(SourceDefault, task, updates, f);
    DefaultsDifferOn(f);
    if !IsExplicit(task, f) {
      UnspelledField(task, updates, f);
      assert Loaded(task, f).Some?;
    }
  }

  /**
   Updating a task without touching any of its section fields, a renaming for instance, keeps
   the loaded task iff five fields are spelled out in it.
   */
  lemma RenamingIsHarmlessIff(task: Dictionary, updates: Dictionary)
    requires WellFormed(task) && Flat(updates) && forall f: Field :: FlatKey(f) !in updates
    requires Nested(task) && Loadable(task)
    ensures (forall f: Field :: Loaded(MergeUpdate(SourceDefault, task, updates), f) == Loaded(task, f))
       <==> SpelledOut(task)
  {
    forall f: Field
      ensures Loaded(MergeUpdate(SourceDefault, task, updates), f) == Loaded(task, f)
         <==> (DefaultsDiffer(f) ==> IsExplicit(task, f))
    {
      NestedFieldIsKeptIff(task, updates, f);
    }
  }

  lemma UnspelledField(task: Dictionary, updates: Dictionary, f: Field)
    requires WellFormed(task) && Nested(task) && Flat(updates)
    requires !IsExplicit(task, f) && FlatKey(f) !in updates
    ensures Loaded(task, f) == LoadDefault(f)
    ensures Loaded(MergeUpdate(SourceDefault, task, updates), f) == Some(SourceDefault(f))
  {
    LoadedAfterUpdate(SourceDefault, task, updates, f);
  }

  // ---------------------------------------------------------------- what the program does with the values

  /** What happens to a file that was processed successfully. */
  datatype Archiving = Stays | Deleted | MovedTo(dir: Json)

  predicate HasArchiveDir(task: Dictionary) {
    Loaded(task, ArchiveDir).Some? && Loaded(task, ArchiveDir) != Some(Atom(""))
  }

  /** Without a directory even the move mode leaves the file where it is. */
  function ArchivingOf(task: Dictionary): Archiving {
    if Loaded(task, Mode) == Some(Atom("keep")) then Stays
    else if Loaded(task, Mode) == Some(Atom("delete")) then Deleted
    else if HasArchiveDir(task) then MovedTo(Loaded(task, ArchiveDir).value)
    else Stays
  }

  /** Where a processed file goes. */
  lemma FileGoesWhere(task: Dictionary)
    ensures ArchivingOf(task).Deleted? <==> Loaded(task, Mode) == Some(Atom("delete"))
    ensures ArchivingOf(task).MovedTo? <==>
      && Loaded(task, Mode) != Some(Atom("keep")) && Loaded(task, Mode) != Some(Atom("delete"))
      && Loaded(task, ArchiveDir).Some? && Loaded(task, ArchiveDir) != Some(Atom(""))
    ensures ArchivingOf(task).MovedTo? ==> Some(ArchivingOf(task).dir) == Loaded(task, ArchiveDir)
  {
    ModeDefaults();
    assert "delete"[0] != "keep"[0];
  }

  /** A poll interval of 0 means no poller, and a retention of 0 no ageing of monthly tables. */
  datatype Behaviour = Behaviour(archiving: Archiving, pollInterval: Option<Json>, retentionMonths: Option<Json>)

  function BehaviourOf(task: Dictionary): Behaviour {
    Behaviour(ArchivingOf(task), Loaded(task, PollInterval), Loaded(task, RetentionMonths))
  }

  lemma ModeDefaults()
    ensures LoadDefault(Mode) == Some(Atom("move")) && SourceDefault(Mode) == Atom("keep")
    ensures "move" != "keep" && "move" != "delete"
  {
    assert "move"[0] != "keep"[0] && "move"[0] != "delete"[0];
  }

  lemma ArchiveDirDefaults()
    ensures LoadDefault(ArchiveDir) == Some(SourceDefault(ArchiveDir)) && !HasFlatFallback(ArchiveDir)
    ensures !HasFlatFallback(Mode)
  {
  }

  lemma ArchiveDirStays(task: Dictionary, updates: Dictionary)
    requires WellFormed(task) && Flat(updates) && FlatKey(ArchiveDir) !in updates
    ensures Loaded(MergeUpdate(SourceDefault, task, updates), ArchiveDir) == Loaded(task, ArchiveDir)
  {
    ArchiveDirDefaults();
    MeaningIsKeptIff(SourceDefault, task, updates, ArchiveDir);
  }

  lemma ModeAfter(task: Dictionary, updates: Dictionary)
    requires WellFormed(task) && Flat(updates) && FlatKey(Mode) !in updates
    ensures Loaded(MergeUpdate(SourceDefault, task, updates), Mode)
         == if IsExplicit(task, Mode) then Loaded(task, Mode) else Some(Atom("keep"))
    ensures !IsExplicit(task, Mode) ==> Loaded(task, Mode) == Some(Atom("move"))
  {
    ModeDefaults();
    ArchiveDirDefaults();
    LoadedAfterUpdate(SourceDefault, task, updates, Mode);
  }

  /**
   An update that leaves mode and directory alone changes what happens to processed files exactly
   in a task that has a directory and no mode: its files were moved there, and stay from then on.
   */
  lemma ArchivingIsKeptIff(task: Dictionary, updates: Dictionary)
    requires WellFormed(task) && Flat(updates) && FlatKey(Mode) !in updates && FlatKey(ArchiveDir) !in updates
    ensures var after := MergeUpdate(SourceDefault, task, updates);
      && (ArchivingOf(after) == ArchivingOf(task) <==> IsExplicit(task, Mode) || !HasArchiveDir(task))
      && (ArchivingOf(after) != ArchivingOf(task) ==> ArchivingOf(task).MovedTo? && ArchivingOf(after) == Stays)
  {
    ModeDefaults();
    ModeAfter(task, updates);
    ArchiveDirStays(task, updates);
  }

  lemma PollAndRetentionDefaults()
    ensures DefaultsDiffer(PollInterval) && DefaultsDiffer(RetentionMonths)
    ensures LoadDefault(PollInterval).Some? && LoadDefault(RetentionMonths).Some?
  {
  }

  /** What an update of other fields, a renaming for instance, changes in the behaviour of a task. */
  lemma BehaviourIsKeptIff(task: Dictionary, updates: Dictionary)
    requires WellFormed(task) && Flat(updates) && forall f: Field :: FlatKey(f) !in updates
    requires Nested(task) && Loadable(task)
    ensures BehaviourOf(MergeUpdate(SourceDefault, task, updates)) == BehaviourOf(task) <==>
      && IsExplicit(task, PollInterval) && IsExplicit(task, RetentionMonths)
      && (IsExplicit(task, Mode) || !HasArchiveDir(task))
  {
    PollAndRetentionDefaults();
    ArchivingIsKeptIff(task, updates);
    NestedFieldIsKeptIff(task, updates, PollInterval);
    NestedFieldIsKeptIff(task, updates, RetentionMonths);
  }

  lemma NamesNoField(updates: Dictionary, name: Json, f: Field)
    requires updates == map[Name := name]
    ensures FlatKey(f) !in updates
  {
  }

  lemma AbsentSection(task: Dictionary, f: Field)
    requires SectionKey(SectionOf(f)) !in task
    ensures !IsExplicit(task, f)
  {
  }

  lemma PollDefaults()
    ensures LoadDefault(PollInterval) == Some(Atom("0")) && SourceDefault(PollInterval) == Atom("60")
  {
  }

  /** So a task without a schedule section, which is not polled, is polled every minute once it is renamed. */
  lemma RenamingStartsPolling(task: Dictionary, name: Json, updates: Dictionary)
    requires WellFormed(task) && Nested(task) && SectionKey(Schedule) !in task
    requires name.Atom? && updates == map[Name := name]
    ensures Loaded(task, PollInterval) == Some(Atom("0"))
    ensures Loaded(MergeUpdate(SourceDefault, task, updates), PollInterval) == Some(Atom("60"))
  {
    PollDefaults();
    AbsentSection(task, PollInterval);
    NamesNoField(updates, name, PollInterval);
    UnspelledField(task, updates, PollInterval);
  }
}
