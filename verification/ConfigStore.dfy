/**
 The configuration file and the running configuration, and how a change made through the web
 interface is saved: validate, write, reload, and on a failed reload write back and reload.
 A document is what the file holds; building it validates it, fills in the environment and
 makes the immutable configuration, and is a partial function.
 */
module ConfigStore {
  import opened Wrappers

  /** An immutable task definition; `rest` stands for the fields nobody here looks at. */
  datatype TaskDef = TaskDef(taskId: string, enabled: bool, monitorFolder: string, rest: string)

  type Config = seq<TaskDef>

  /** The index by task id, as a dict comprehension builds it: a later task wins. */
  function IndexOf(tasks: Config): map<string, TaskDef> {
    if tasks == [] then map[]
    else IndexOf(tasks[..|tasks| - 1])[tasks[|tasks| - 1].taskId := tasks[|tasks| - 1]]
  }

  /** Under unique ids a lookup finds exactly the task with that id. */
  lemma {:induction false} LookupFindsTask(tasks: Config, t: TaskDef)
    requires forall i, j :: 0 <= i < j < |tasks| ==> tasks[i].taskId != tasks[j].taskId
    ensures t in tasks <==> t.taskId in IndexOf(tasks) && IndexOf(tasks)[t.taskId] == t
    ensures t.taskId in IndexOf(tasks) <==> exists u :: u in tasks && u.taskId == t.taskId
  {
    if tasks != [] {
      var p, last := tasks[..|tasks| - 1], tasks[|tasks| - 1];
      assert tasks == p + [last];
      LookupFindsTask(p, t);
      assert forall u :: u in p ==> u.taskId != last.taskId;
    }
  }

  // ---------------------------------------------------------------- the file

  /** What a file holds: a whole document, or some part of one. */
  datatype Content<Doc> = Whole(doc: Doc) | Torn

  /** A temporary file beside the configuration: its content is only certain once it is synced. */
  datatype Temp<Doc> = NoTemp | Unsynced | Synced(doc: Doc)

  /** `litter` counts temporary files that could not be removed. */
  datatype Disk<Doc> = Disk(file: Content<Doc>, temp: Temp<Doc>, litter: nat)

  /** The steps of a write: create the temporary file, write it, sync it, replace the old file by it. */
  datatype Stage = Create | Fill | Sync | Replace

  const STAGES := [Create, Fill, Sync, Replace]

  /** A file that replaces another one before it is synced may be torn by a crash. */
  function StageStep<Doc>(d: Disk<Doc>, doc: Doc, stage: Stage): Disk<Doc> {
    match stage
    case Create => d.(temp := Unsynced)
    case Fill => d
    case Sync => if d.temp.NoTemp? then d else d.(temp := Synced(doc))
    case Replace =>
      match d.temp
      case NoTemp => d
      case Unsynced => d.(file := Torn, temp := NoTemp)
      case Synced(synced) => d.(file := Whole(synced), temp := NoTemp)
  }

  /** What a crash after these steps leaves on the disk. */
  function AfterStages<Doc>(d: Disk<Doc>, doc: Doc, stages: seq<Stage>): Disk<Doc> {
    if stages == [] then d
    else StageStep(AfterStages(d, doc, stages[..|stages| - 1]), doc, stages[|stages| - 1])
  }

  /** Whenever it happens, the file is the whole old one, or the whole new one after the last step. */
  lemma {:induction false} CrashKeepsWholeFile<Doc>(d: Disk<Doc>, doc: Doc, n: nat)
    requires n <= |STAGES|
    ensures AfterStages(d, doc, STAGES[..n]).file == if n == |STAGES| then Whole(doc) else d.file
    ensures AfterStages(d, doc, STAGES[..n]).litter == d.litter
    ensures AfterStages(d, doc, STAGES[..n]).temp ==
      if n == 0 then d.temp else if n <= 2 then Unsynced else if n == 3 then Synced(doc) else NoTemp
  {
    if n > 0 {
      CrashKeepsWholeFile(d, doc, n - 1);
      StagesLast(d, doc, STAGES[..n - 1], STAGES[n - 1]);
      assert STAGES[..n - 1] + [STAGES[n - 1]] == STAGES[..n];
    }
  }

  lemma StagesLast<Doc>(d: Disk<Doc>, doc: Doc, stages: seq<Stage>, last: Stage)
    ensures AfterStages(d, doc, stages + [last]) == StageStep(AfterStages(d, doc, stages), doc, last)
  {
    assert (stages + [last])[..|stages|] == stages;
  }

  /** The sync decides: without it a crash after the same other steps may leave a torn file. */
  lemma SyncIsNeeded<Doc>(d: Disk<Doc>, doc: Doc)
    ensures AfterStages(d, doc, [Create, Fill, Replace]).file == Torn
  {
    StagesLast(d, doc, [], Create);
    StagesLast(d, doc, [Create], Fill);
    StagesLast(d, doc, [Create, Fill], Replace);
    assert [] + [Create] == [Create] && [Create] + [Fill] == [Create, Fill];
    assert [Create, Fill] + [Replace] == [Create, Fill, Replace];
  }

  /** Which step raises, and whether the clean-up after it fails as well. */
  datatype WriteFault = WriteFault(stage: Stage, unlinkFails: bool)

  datatype Exit = Saved | Rejected | WriteFailed | RolledBack | RollbackFailed

  /** Which of the steps meets an I/O error, beyond what the documents themselves cause. */
  datatype Faults = Faults(
    write: Option<WriteFault>, reload: bool, writeBack: Option<WriteFault>, reloadBack: bool)

  predicate RaisesAt(fault: Option<WriteFault>, stage: Stage) {
    fault.Some? && fault.value.stage == stage
  }

  class ConfigManager<Doc(==)> {
    const valid: Doc -> bool
    const build: Doc -> Option<Config>
    var disk: Disk<Doc>
    var config: Config
    var taskIndex: map<string, TaskDef>

    constructor (valid: Doc -> bool, build: Doc -> Option<Config>, file: Doc, config: Config)
      requires build(file) == Some(config)
      ensures this.valid == valid && this.build == build && this.config == config
      ensures disk == Disk(Whole(file), NoTemp, 0)
      ensures Indexed() && InAgreement()
    {
      this.valid, this.build, this.config := valid, build, config;
      disk := Disk(Whole(file), NoTemp, 0);
      taskIndex := IndexOf(config);
    }

    ghost predicate Indexed()
      reads this
    {
      taskIndex == IndexOf(config)
    }

    /** What the file says, if it can be read and built. */
    function Built(): Option<Config>
      reads this
    {
      match disk.file case Whole(doc) => build(doc) case Torn => None
    }

    /** What runs is what the file says. */
    ghost predicate InAgreement()
      reads this
    {
      Built() == Some(config)
    }

    /**
     The new file is in place iff no step raised, and a failed write leaves a temporary file only
     if that cannot be removed.
     */
    method WriteConfig(doc: Doc, fault: Option<WriteFault>) returns (ok: bool)
      requires disk.temp.NoTemp?
      modifies this`disk
      ensures ok <==> fault.None?
      ensures disk.file == if ok then Whole(doc) else old(disk.file)
      ensures ok ==> disk == AfterStages(old(disk), doc, STAGES)
      ensures disk.temp.NoTemp?
      ensures disk.litter == old(disk.litter)
        + (if fault.Some? && fault.value.unlinkFails && fault.value.stage != Create then 1 else 0)
    {
      if RaisesAt(fault, Create) {
        return false;
      }
      disk := StageStep(disk, doc, Create);
      disk := StageStep(disk, doc, Fill);
      if RaisesAt(fault, Fill) {
        CleanUp(fault.value.unlinkFails);
        return false;
      }
      disk := StageStep(disk, doc, Sync);
      if RaisesAt(fault, Sync) {
        CleanUp(fault.value.unlinkFails);
        return false;
      }
      if RaisesAt(fault, Replace) {
        CleanUp(fault.value.unlinkFails);
        return false;
      }
      disk := StageStep(disk, doc, Replace);
      StagesLast(old(disk), doc, [], Create);
      StagesLast(old(disk), doc, [] + [Create], Fill);
      StagesLast(old(disk), doc, [] + [Create] + [Fill], Sync);
      StagesLast(old(disk), doc, [] + [Create] + [Fill] + [Sync], Replace);
      assert [] + [Create] + [Fill] + [Sync] + [Replace] == STAGES;
      return true;
    }

    /** The temporary file is removed, or given up. */
    method CleanUp(unlinkFails: bool)
      modifies this`disk
      ensures disk == old(disk).(temp := NoTemp, litter := old(disk).litter + (if unlinkFails then 1 else 0))
    {
      disk := disk.(temp := NoTemp, litter := disk.litter + (if unlinkFails then 1 else 0));
    }

    /** A failed reload keeps the old configuration; configuration and index change together. */
    method Reload(fault: bool) returns (ok: bool)
      requires Indexed()
      modifies this`config, this`taskIndex
      ensures Indexed()
      ensures ok <==> !fault && Built().Some?
      ensures config == if ok then Built().value else old(config)
    {
      if fault {
        return false;
      }
      var built := Built();
      if built.None? {
        return false;
      }
      config := built.value;
      taskIndex := IndexOf(config);
      return true;
    }

    /**
     Saving is transactional, except when the rollback cannot even write the old file back:
     then, and only then, file and configuration may part.
     */
    method SaveAndReload(doc: Doc, oldDoc: Doc, faults: Faults) returns (exit: Exit)
      requires Indexed() && InAgreement() && disk.file == Whole(oldDoc) && disk.temp.NoTemp?
      modifies this`disk, this`config, this`taskIndex
      ensures Indexed() && disk.temp.NoTemp?
      ensures exit.Saved? <==> valid(doc) && faults.write.None? && !faults.reload && build(doc).Some?
      ensures exit.Rejected? <==> !valid(doc)
      ensures exit.WriteFailed? <==> valid(doc) && faults.write.Some?
      ensures exit.RolledBack? <==>
        (&& valid(doc) && faults.write.None? && (faults.reload || build(doc).None?)
         && faults.writeBack.None? && !faults.reloadBack)
      ensures exit.Saved? ==> disk.file == Whole(doc) && InAgreement()
      ensures !exit.Saved? ==> config == old(config)
      ensures !exit.Saved? && !exit.RollbackFailed? ==> disk.file == old(disk.file)
      ensures InAgreement() <==> !(exit.RollbackFailed? && faults.writeBack.Some?) || build(doc) == Some(config)
    {
      if !valid(doc) {
        return Rejected;
      }
      var written := WriteConfig(doc, faults.write);
      if !written {
        return WriteFailed;
      }
      var reloaded := Reload(faults.reload);
      if reloaded {
        return Saved;
      }
      var restored := WriteConfig(oldDoc, faults.writeBack);
      if !restored {
        return RollbackFailed;
      }
      var again := Reload(faults.reloadBack);
      if !again {
        return RollbackFailed;
      }
      return RolledBack;
    }
  }
}
