/** The second pipeline stage: record the new directory, branch and
    revision in the node's configuration, log the update, and write the
    rotated configuration file.  Failures of the log and of the file write
    are swallowed; the stage still reports success. */
module UpdateConfig {
  import opened Common
  import opened Files
  import opened Git
  import CreateNewRenderedDirectory
  import opened History
  import opened Tasks

  const LastUpdatedKey: string := "com.meltmedia.cadmium.lastUpdated"
  const PreviousKey: string := "com.meltmedia.cadmium.previous"
  const BranchKey: string := "branch"
  const BranchLastKey: string := "branch.last"
  const ShaKey: string := "git.ref.sha"
  const ShaLastKey: string := "git.ref.sha.last"
  const UpdatingToShaKey: string := "updating.to.sha"
  const UpdatingToBranchKey: string := "updating.to.branch"
  const ConfigFileName: string := "config.properties"

  /** A properties file written to disk. */
  datatype ConfigFile = ConfigFile(directory: string, name: string, contents: map<string, string>)

  /** One step of building the written table: keep the value `config`
      held under `key` as `lastKey`, then record `value` under `key`. */
  function Rotate(updated: map<string, string>, config: map<string, string>, key: string, lastKey: string, value: string): (m: map<string, string>)
    ensures m.Keys == updated.Keys + {key} + (if key in config then {lastKey} else {})
    ensures m[key] == value
    ensures lastKey != key && key in config ==> m[lastKey] == config[key]
    ensures forall k :: k in updated && k != key && (key in config ==> k != lastKey) ==> m[k] == updated[k]
  {
    (if key in config then updated[lastKey := config[key]] else updated)[key := value]
  }

  /** The table written to "config.properties": the three current values,
      and the value each replaces under its "previous" key when there was
      one.  Nothing else. */
  function RotatedConfig(config: map<string, string>, dir: string, branch: string, revision: string): (m: map<string, string>)
    ensures m.Keys ==
      {LastUpdatedKey, BranchKey, ShaKey}
      + (if LastUpdatedKey in config then {PreviousKey} else {})
      + (if BranchKey in config then {BranchLastKey} else {})
      + (if ShaKey in config then {ShaLastKey} else {})
    ensures m[LastUpdatedKey] == dir && m[BranchKey] == branch && m[ShaKey] == revision
    ensures PreviousKey in m ==> m[PreviousKey] == config[LastUpdatedKey]
    ensures BranchLastKey in m ==> m[BranchLastKey] == config[BranchKey]
    ensures ShaLastKey in m ==> m[ShaLastKey] == config[ShaKey]
  {
    var c1 := config[LastUpdatedKey := dir];
    var c2 := c1[BranchKey := branch];
    var m1 := Rotate(map[], config, LastUpdatedKey, PreviousKey, dir);
    var m2 := Rotate(m1, c1, BranchKey, BranchLastKey, branch);
    Rotate(m2, c2, ShaKey, ShaLastKey, revision)
  }

  /** The in-memory configuration after a completed call: the three current
      values replaced, the "updating.to" markers gone, every other key as
      it was. */
  function CommittedConfig(config: map<string, string>, dir: string, branch: string, revision: string): (m: map<string, string>)
    ensures UpdatingToShaKey !in m && UpdatingToBranchKey !in m
    ensures m.Keys == config.Keys + {LastUpdatedKey, BranchKey, ShaKey} - {UpdatingToShaKey, UpdatingToBranchKey}
    ensures m[LastUpdatedKey] == dir && m[BranchKey] == branch && m[ShaKey] == revision
    ensures forall k :: k in config && k !in {LastUpdatedKey, BranchKey, ShaKey, UpdatingToShaKey, UpdatingToBranchKey} ==>
      m[k] == config[k]
  {
    config[LastUpdatedKey := dir][BranchKey := branch][ShaKey := revision] - {UpdatingToShaKey, UpdatingToBranchKey}
  }

  /** The operator logged for the update: "AUTO" for a comment of exactly
      "SYNC", otherwise the "openId" property, possibly null. */
  function Operator(properties: map<string, string>): (r: Option<string>)
    ensures Get(properties, "comment") == Some("SYNC") ==> r == Some("AUTO")
    ensures Get(properties, "comment") != Some("SYNC") ==> r == Get(properties, "openId")
  {
    if Get(properties, "comment") == Some("SYNC") then Some("AUTO") else Get(properties, "openId")
  }

  /** The revertible flag logged: the negation of `new Boolean(nonRevertible)`. */
  function Revertible(properties: map<string, string>): (r: bool)
    ensures r <==> !(Get(properties, "nonRevertible").Some? && EqualsIgnoreCase(properties["nonRevertible"], "true"))
    ensures "nonRevertible" !in properties ==> r
  {
    !ParseBoolean(Get(properties, "nonRevertible"))
  }

  /** The event the stage logs for a completed update: the new branch,
      revision and directory, the run's comment, an "AUTO" operator for
      synchronisation runs and a revertible flag read from the run. */
  function UpdateEventFor(properties: map<string, string>, dir: string, branch: string, revision: string): (e: HistoryEvent)
    ensures e.UpdateEvent? && e.branch == branch && e.revision == revision && e.directory == dir
    ensures e.comment == Get(properties, "comment")
    ensures e.comment == Some("SYNC") ==> e.openId == Some("AUTO")
    ensures e.comment != Some("SYNC") ==> e.openId == Get(properties, "openId")
    ensures "nonRevertible" !in properties ==> e.revertible
  {
    UpdateEvent(branch, revision, Operator(properties), dir, Get(properties, "comment"), Revertible(properties))
  }

  class UpdateConfigTask {
    const service: GitService
    const properties: StringTable
    const configProperties: StringTable
    const manager: HistoryManager?
    const previous: Predecessor

    constructor (service: GitService, properties: StringTable, configProperties: StringTable,
                 manager: HistoryManager?, previous: Predecessor)
      ensures this.service == service && this.properties == properties
      ensures this.configProperties == configProperties && this.manager == manager
      ensures this.previous == previous
    {
      this.service := service;
      this.properties := properties;
      this.configProperties := configProperties;
      this.manager := manager;
      this.previous := previous;
    }

    /** `call()`.  `baseDirectory` is where the configuration file goes
        (the parent of the service's base directory) and `writeFails`
        whether writing it throws. */
    method Call(baseDirectory: string, writeFails: bool) returns (r: Result<bool, TaskError>, written: Option<ConfigFile>)
      requires properties != configProperties
      modifies configProperties, manager
      ensures manager != null && (r.Err? || old(manager.failing)) ==> manager.events == old(manager.events)
      ensures r.Err? ==> written.None?
      // a failed or crashed predecessor: nothing happens
      ensures PredecessorError(previous).Some? ==>
        r == Err(PredecessorError(previous).value) && configProperties.entries == old(configProperties.entries)
      // no "nextDirectory": the first setProperty throws before any change
      ensures PredecessorError(previous).None? && NextDirectoryKey !in properties.entries ==>
        r == Err(NullValue) && configProperties.entries == old(configProperties.entries)
      // no commit for the current branch: throws after two of the three updates
      ensures PredecessorError(previous).None? && NextDirectoryKey in properties.entries && service.CurrentRevision().None? ==>
        && r == Err(NullValue)
        && configProperties.entries ==
           old(configProperties.entries)[LastUpdatedKey := properties.entries[NextDirectoryKey]][BranchKey := service.branch]
      // the normal case
      ensures PredecessorError(previous).None? && NextDirectoryKey in properties.entries && service.CurrentRevision().Some? ==>
        var dir, branch, revision := properties.entries[NextDirectoryKey], service.branch, service.tips[service.branch];
        && r == Ok(true)
        && configProperties.entries == CommittedConfig(old(configProperties.entries), dir, branch, revision)
        && (written.Some? <==> !writeFails)
        && (written.Some? ==>
              written.value == ConfigFile(baseDirectory, ConfigFileName, RotatedConfig(old(configProperties.entries), dir, branch, revision)))
        && (manager != null && !old(manager.failing) ==>
              manager.events == old(manager.events) + [UpdateEventFor(properties.entries, dir, branch, revision)])
    {
      written := None;
      var failure := PredecessorError(previous);
      if failure.Some? {
        return Err(failure.value), written;
      }
      ghost var before := configProperties.entries;
      var lastUpdatedDir := Get(properties.entries, NextDirectoryKey);
      var updated: map<string, string> := map[];
      if LastUpdatedKey in configProperties.entries {
        updated := updated[PreviousKey := configProperties.entries[LastUpdatedKey]];
      }
      if lastUpdatedDir.None? {
        return Err(NullValue), written;
      }
      var dir := lastUpdatedDir.value;
      updated := updated[LastUpdatedKey := dir];
      assert updated == Rotate(map[], before, LastUpdatedKey, PreviousKey, dir);
      configProperties.entries := configProperties.entries[LastUpdatedKey := dir];
      var branch := service.BranchName();
      updated := Rotate(updated, configProperties.entries, BranchKey, BranchLastKey, branch);
      configProperties.entries := configProperties.entries[BranchKey := branch];
      var currentRevision := service.CurrentRevision();
      if currentRevision.None? {
        return Err(NullValue), written;
      }
      var revision := currentRevision.value;
      updated := Rotate(updated, configProperties.entries, ShaKey, ShaLastKey, revision);
      configProperties.entries := configProperties.entries[ShaKey := revision];

      if manager != null {
        var logged := manager.LogEvent(UpdateEventFor(properties.entries, dir, branch, revision));
      }
      RemoveMarkers();
      if !writeFails {
        written := Some(ConfigFile(baseDirectory, ConfigFileName, updated));
      }
      r := Ok(true);
    }

    /** Drops the "updating.to" markers, each only when present. */
    method RemoveMarkers()
      modifies configProperties
      ensures configProperties.entries == old(configProperties.entries) - {UpdatingToShaKey, UpdatingToBranchKey}
    {
      if UpdatingToShaKey in configProperties.entries {
        configProperties.Remove(UpdatingToShaKey);
      }
      if UpdatingToBranchKey in configProperties.entries {
        configProperties.Remove(UpdatingToBranchKey);
      }
    }
  }

  /** The two stages chained as the update runs them: the configuration
      stage reads the staging stage's result.  A staging stage that did not
      return true leaves the configuration and the log untouched; one that
      did has its new directory recorded as the last update. */
  method RunStages(staging: CreateNewRenderedDirectory.CreateNewRenderedDirectoryTask, allocation: CreateNewRenderedDirectory.Allocation, existing: set<string>,
                   produced: Option<RepoImage>, fs: FileSystemView, deleteFails: bool,
                   configProperties: StringTable, manager: HistoryManager?, baseDirectory: string, writeFails: bool)
    returns (staged: Result<bool, TaskError>, r: Result<bool, TaskError>, written: Option<ConfigFile>)
    requires staging.properties != configProperties
    modifies staging.properties, configProperties, manager
    ensures staged != Ok(true) ==>
      && r.Err? && written.None?
      && configProperties.entries == old(configProperties.entries)
      && (manager != null ==> manager.events == old(manager.events))
    ensures staged == Ok(true) ==> allocation.Allocated?
    ensures staged == Ok(true) && staging.service.CurrentRevision().Some? ==>
      && r == Ok(true)
      && LastUpdatedKey in configProperties.entries
      && configProperties.entries[LastUpdatedKey] == allocation.dir
  {
    var effects;
    staged, effects := staging.Call(allocation, existing, produced, fs, deleteFails);
    var update := new UpdateConfigTask(staging.service, staging.properties, configProperties, manager, AsPredecessor(staged));
    r, written := update.Call(baseDirectory, writeFails);
  }
}
