/**
 The two stores that hold the client's local state in memory and write it to a file after every
 change (`LocalPrintContextStore` and `PrinterMetadataStore`).  A method returns the text it writes,
 or None when it writes nothing; `order` is the order in which the map happens to be walked.
 */
module Stores {
  import opened Wrappers
  import opened LocalState
  import opened Text
  import opened Json
  import opened JsonSpot
  import opened Escape
  import opened StatusRewrite
  import opened StatusTree
  import opened PrinterMetadata

  /** The ids to add to a message of the device: those of its active job. */
  function ActiveJob(contexts: Contexts, deviceId: string): Option<JobIds> {
    if deviceId in contexts && contexts[deviceId].active then
      var c := contexts[deviceId];
      Some(JobIds(c.projectId, c.profileId, c.subtaskId, c.taskId))
    else None
  }

  /** The calls that change the jobs, with the text that a load finds in the file. */
  datatype Change = Loaded(text: Option<string>) | Cleared(devId: string) | Updated(context: LocalPrintContext)

  function Changed(contexts: Contexts, change: Change): Contexts {
    match change
    case Loaded(text) => if text.None? then map[] else LoadContexts(text.value)
    case Cleared(devId) => if devId == "" then contexts else contexts - {devId}
    case Updated(context) => contexts[context.devId := context]
  }

  lemma PrintWord()
    ensures Quote("print") == "\"print\""
  {
  }

  lemma IdTexts(id: string)
    ensures IdMember("project_id", id) == "\"project_id\":\"" + JsonEscape(id) + "\","
    ensures IdMember("profile_id", id) == "\"profile_id\":\"" + JsonEscape(id) + "\","
    ensures IdMember("subtask_id", id) == "\"subtask_id\":\"" + JsonEscape(id) + "\","
    ensures IdMember("task_id", id) == "\"task_id\":\"" + JsonEscape(id) + "\","
  {
    hide JsonEscape;
    assert "\"" + "project_id" + "\":\"" == "\"project_id\":\"";
    assert "\"" + "profile_id" + "\":\"" == "\"profile_id\":\"";
    assert "\"" + "subtask_id" + "\":\"" == "\"subtask_id\":\"";
    assert "\"" + "task_id" + "\":\"" == "\"task_id\":\"";
  }

  lemma IdWords()
    ensures Quote("project_id") == "\"project_id\"" && Quote("profile_id") == "\"profile_id\""
    ensures Quote("subtask_id") == "\"subtask_id\"" && Quote("task_id") == "\"task_id\""
  {
  }

  lemma InsertNothing(s: string, at: nat)
    requires at <= |s|
    ensures Insert(s, at, "") == s
  {
  }

  /** The members for those of the four ids that the text from `printKey` on does not mention. */
  method MissingIds(message: string, printKey: nat, context: LocalPrintContext) returns (injected: string)
    ensures injected == MissingMembers(message, printKey, JobIds(context.projectId, context.profileId, context.subtaskId, context.taskId))
  {
    IdWords();
    hide Find, JsonEscape, Quote, IdMember;
    injected := "";
    if Find(message, "\"project_id\"", printKey).None? {
      var id := EscapeText(context.projectId);
      IdTexts(context.projectId);
      injected := injected + ("\"project_id\":\"" + id + "\",");
    }
    ghost var project := MissingMember(message, printKey, "project_id", context.projectId);
    assert injected == project;
    if Find(message, "\"profile_id\"", printKey).None? {
      var id := EscapeText(context.profileId);
      IdTexts(context.profileId);
      injected := injected + ("\"profile_id\":\"" + id + "\",");
    }
    ghost var profile := MissingMember(message, printKey, "profile_id", context.profileId);
    assert injected == project + profile;
    if Find(message, "\"subtask_id\"", printKey).None? {
      var id := EscapeText(context.subtaskId);
      IdTexts(context.subtaskId);
      injected := injected + ("\"subtask_id\":\"" + id + "\",");
    }
    ghost var subtask := MissingMember(message, printKey, "subtask_id", context.subtaskId);
    assert injected == project + profile + subtask;
    if Find(message, "\"task_id\"", printKey).None? {
      var id := EscapeText(context.taskId);
      IdTexts(context.taskId);
      injected := injected + ("\"task_id\":\"" + id + "\",");
    }
    ghost var task := MissingMember(message, printKey, "task_id", context.taskId);
    assert injected == project + profile + subtask + task;
  }

  class LocalPrintContextStore {
    var contexts: Contexts

    constructor ()
      ensures contexts == map[]
    {
      contexts := map[];
    }

    /** A missing file loads as an empty map. */
    method Load(text: Option<string>)
      modifies this
      ensures contexts == Changed(old(contexts), Loaded(text))
      ensures contexts == if text.None? then map[] else LoadContexts(text.value)
    {
      if text.None? {
        contexts := map[];
      } else {
        contexts := LoadLocalPrintContexts(text.value);
      }
    }

    method Clear(devId: string, order: seq<string>) returns (written: Option<string>)
      requires Walks(order, contexts - {devId})
      modifies this
      ensures contexts == Changed(old(contexts), Cleared(devId))
      ensures forall k :: k in contexts <==> k in old(contexts) && (k != devId || devId == "")
      ensures forall k | k in contexts :: contexts[k] == old(contexts)[k]
      ensures written == if devId == "" then None else Some(PersistContexts(contexts, order))
    {
      if devId == "" {
        return None;
      }
      contexts := contexts - {devId};
      var text := PersistLocalPrintContexts(contexts, order);
      return Some(text);
    }

    method Update(context: LocalPrintContext, order: seq<string>) returns (written: Option<string>)
      requires Walks(order, contexts[context.devId := context])
      modifies this
      ensures contexts == Changed(old(contexts), Updated(context))
      ensures forall k :: k in contexts <==> k in old(contexts) || k == context.devId
      ensures forall k | k in contexts :: contexts[k] == if k == context.devId then context else old(contexts)[k]
      ensures written == Some(PersistContexts(contexts, order))
    {
      contexts := contexts[context.devId := context];
      var text := PersistLocalPrintContexts(contexts, order);
      return Some(text);
    }

    /** The first active job of the subtask on the walk, if there is one at all. */
    method LookupSubtaskId(subtaskId: string, order: seq<string>) returns (context: Option<LocalPrintContext>)
      requires Walks(order, contexts)
      ensures context.None? <==> forall k | k in contexts :: !(contexts[k].active && contexts[k].subtaskId == subtaskId)
      ensures context.Some? ==> context.value.active && context.value.subtaskId == subtaskId
      ensures context.Some? ==> exists k | k in contexts :: contexts[k] == context.value
    {
      assert forall k | k in contexts :: k in (set x | x in order);
      for i := 0 to |order|
        invariant forall j | 0 <= j < i && order[j] in contexts ::
          !(contexts[order[j]].active && contexts[order[j]].subtaskId == subtaskId)
      {
        assert order[i] in (set x | x in order);
        var c := contexts[order[i]];
        if c.active && c.subtaskId == subtaskId {
          return Some(c);
        }
      }
      return None;
    }

    method RewriteStatusMessage(deviceId: string, message: string) returns (rewritten: string)
      ensures rewritten == RewriteStatus(ActiveJob(contexts, deviceId), message)
    {
      PrintWord();
      hide Find, JsonEscape, WithCapability, Quote, MissingMembers;
      rewritten := InjectFileCapability(message);
      if deviceId !in contexts || !contexts[deviceId].active {
        return;
      }
      var context := contexts[deviceId];
      var printKey := Find(rewritten, "\"print\"", 0);
      if printKey.None? {
        return;
      }
      var objectStart := Find(rewritten, "{", printKey.value);
      if objectStart.None? {
        return;
      }
      var injected := MissingIds(rewritten, printKey.value, context);
      if injected == "" {
        InsertNothing(rewritten, objectStart.value + 1);
        return;
      }
      var at := objectStart.value + 1;
      rewritten := rewritten[..at] + injected + rewritten[at..];
    }
  }

  class PrinterMetadataStore {
    var nameOverrides: Names

    constructor ()
      ensures nameOverrides == map[]
    {
      nameOverrides := map[];
    }

    method Load(text: Option<string>)
      modifies this
      ensures nameOverrides == if text.None? then map[] else LoadNames(text.value)
    {
      if text.None? {
        nameOverrides := map[];
      } else {
        nameOverrides := LoadPrinterNameOverrides(text.value);
      }
    }

    /** An empty name removes the override. */
    method SetNameOverride(devId: string, devName: string, order: seq<string>) returns (written: string)
      requires (set k | k in order) == (if devName == "" then nameOverrides - {devId} else nameOverrides[devId := devName]).Keys
      modifies this
      ensures nameOverrides == if devName == "" then old(nameOverrides) - {devId} else old(nameOverrides)[devId := devName]
      ensures written == PersistNames(nameOverrides, order)
    {
      if devName == "" {
        nameOverrides := nameOverrides - {devId};
      } else {
        nameOverrides := nameOverrides[devId := devName];
      }
      written := PersistPrinterNameOverrides(nameOverrides, order);
    }

    method ApplyNameOverride(json: string) returns (rewritten: string)
      ensures rewritten == ApplyOverride(nameOverrides, json)
      ensures var id := JsonStringField(json, "dev_id");
              id == "" || id !in nameOverrides || nameOverrides[id] == "" || ValueEnd(json, "dev_name").None? ==> rewritten == json
    {
      hide ScanEnd, Find, JsonEscape;
      rewritten := json;
      var hasId, idStart, idEnd := FindJsonStringValueRange(json, "dev_id");
      var devId := if hasId then json[idStart..idEnd] else "";
      if devId == "" {
        return;
      }
      if devId !in nameOverrides || nameOverrides[devId] == "" {
        return;
      }
      var found, start, end := FindJsonStringValueRange(json, "dev_name");
      if !found {
        return;
      }
      var name := EscapeText(nameOverrides[devId]);
      rewritten := json[..start] + name + json[end..];
    }
  }

  // ----- what reaches a message -----

  /** Those of the members whose keys are not shown from the print object on. */
  function Unmentioned(spot: Spot, members: seq<Member>, ids: seq<Member>): seq<Member> {
    if ids == [] then []
    else (if Present(spot, members, ids[0].key) then [] else [ids[0]]) + Unmentioned(spot, members, ids[1..])
  }

  lemma {:induction false} AllUnmentioned(spot: Spot, members: seq<Member>, ids: seq<Member>)
    requires forall m | m in ids :: !Present(spot, members, m.key)
    ensures Unmentioned(spot, members, ids) == ids
  {
    if ids != [] {
      AllUnmentioned(spot, members, ids[1..]);
      assert ids == [ids[0]] + ids[1..];
    }
  }

  lemma IdUnmentioned(spot: Spot, members: seq<Member>, key: string, id: string, more: seq<Member>, rest: seq<Member>)
    ensures Unmentioned(spot, members, [Member(key, Str(JsonEscape(id)))] + more) + rest ==
            MissingId(spot, members, key, id) + (Unmentioned(spot, members, more) + rest)
  {
    hide Present;
    var ms := [Member(key, Str(JsonEscape(id)))];
    assert (ms + more)[1..] == more;
    assert Unmentioned(spot, members, ms + more) == MissingId(spot, members, key, id) + Unmentioned(spot, members, more);
  }

  lemma IdsUnmentioned(ids: JobIds, spot: Spot, members: seq<Member>, rest: seq<Member>)
    ensures WithIds(Some(ids), spot, members, rest) ==
            Unmentioned(spot, members,
                        [Member("project_id", Str(JsonEscape(ids.projectId))), Member("profile_id", Str(JsonEscape(ids.profileId))),
                         Member("subtask_id", Str(JsonEscape(ids.subtaskId))), Member("task_id", Str(JsonEscape(ids.taskId)))]) + rest
  {
    hide Unmentioned, MissingId, JsonEscape;
    var a, b := Member("project_id", Str(JsonEscape(ids.projectId))), Member("profile_id", Str(JsonEscape(ids.profileId)));
    var c, d := Member("subtask_id", Str(JsonEscape(ids.subtaskId))), Member("task_id", Str(JsonEscape(ids.taskId)));
    assert [a] + [b, c, d] == [a, b, c, d] && [b] + [c, d] == [b, c, d] && [c] + [d] == [c, d] && [d] + [] == [d];
    IdUnmentioned(spot, members, "project_id", ids.projectId, [b, c, d], rest);
    IdUnmentioned(spot, members, "profile_id", ids.profileId, [c, d], rest);
    IdUnmentioned(spot, members, "subtask_id", ids.subtaskId, [d], rest);
    IdUnmentioned(spot, members, "task_id", ids.taskId, [], rest);
    NoneUnmentioned(spot, members);
    assert [] + rest == rest;
  }

  lemma NoneUnmentioned(spot: Spot, members: seq<Member>)
    ensures Unmentioned(spot, members, []) == []
  {
  }

  /**
   What a message of the device says after the rewriting.  With an active job under the device, those of
   its project, profile, subtask and task id that the message does not show stand in front of the print
   object, each as a string for the stored text; then the ipcam member.  Without one, the latter alone.
   */
  lemma JobReachesMessage(contexts: Contexts, deviceId: string, spot: Spot, members: seq<Member>)
    requires Editable(spot, members) && !Present(spot, members, "ipcam")
    ensures
      var rewritten := RewriteStatus(ActiveJob(contexts, deviceId), Print(Plug(spot, Member("print", Obj(members)))));
      var file := Obj([Member("local", Str("local")), Member("remote", Str("none")), Member("model_download", Str("disabled"))]);
      var ipcam := Member("ipcam", Obj([Member("file", file)]));
      if deviceId in contexts && contexts[deviceId].active then
        var c := contexts[deviceId];
        var ids := [Member("project_id", Str(JsonEscape(c.projectId))), Member("profile_id", Str(JsonEscape(c.profileId))),
                    Member("subtask_id", Str(JsonEscape(c.subtaskId))), Member("task_id", Str(JsonEscape(c.taskId)))];
        && rewritten == Print(Plug(spot, Member("print", Obj(Unmentioned(spot, members, ids) + ([ipcam] + members)))))
        && ((forall m | m in ids :: !Present(spot, members, m.key)) ==> Unmentioned(spot, members, ids) == ids)
      else rewritten == Print(Plug(spot, Member("print", Obj([ipcam] + members))))
  {
    hide RewriteStatus, Print, Plug, Editable, Present, JsonEscape, Unmentioned, WithIds;
    RewriteIsTreeEdit(ActiveJob(contexts, deviceId), spot, members);
    if deviceId in contexts && contexts[deviceId].active {
      var c := contexts[deviceId];
      var ids := [Member("project_id", Str(JsonEscape(c.projectId))), Member("profile_id", Str(JsonEscape(c.profileId))),
                  Member("subtask_id", Str(JsonEscape(c.subtaskId))), Member("task_id", Str(JsonEscape(c.taskId)))];
      IdsUnmentioned(ActiveJob(contexts, deviceId).value, spot, members, [CapabilityMember()] + members);
      if forall m | m in ids :: !Present(spot, members, m.key) {
        AllUnmentioned(spot, members, ids);
      }
    } else {
      NoIds(spot, members, [CapabilityMember()] + members);
    }
  }

  lemma NoIds(spot: Spot, members: seq<Member>, rest: seq<Member>)
    ensures WithIds(None, spot, members, rest) == rest
  {
  }

  // ----- a restart goes unnoticed -----

  lemma KeptJob(contexts: Contexts, deviceId: string)
    requires deviceId != ""
    ensures ActiveJob(KeptPart(contexts), deviceId) == ActiveJob(contexts, deviceId)
  {
  }

  /**
   A client restarted from the file rewrites every status message of every named device as the
   running one did, provided the active jobs can be held by the file.
   */
  lemma RestartKeepsRewrites(contexts: Contexts, order: seq<string>, deviceId: string, message: string)
    requires Walks(order, contexts) && Normal(KeptPart(contexts)) && deviceId != ""
    ensures RewriteStatus(ActiveJob(LoadContexts(PersistContexts(contexts, order)), deviceId), message) ==
            RewriteStatus(ActiveJob(contexts, deviceId), message)
  {
    hide *;
    PersistLoadIff(contexts, order);
    KeptJob(contexts, deviceId);
  }

  lemma UpdateKept(contexts: Contexts, c: LocalPrintContext)
    requires Normal(KeptPart(contexts)) && (Storable(c) || !c.active)
    ensures Normal(KeptPart(contexts[c.devId := c]))
  {
    hide Storable;
    var after := contexts[c.devId := c];
    forall k | k in KeptPart(after) ensures after[k].devId == k && Storable(after[k]) {
      if k != c.devId {
        assert KeptPart(contexts)[k] == contexts[k];
      }
    }
  }

  lemma ClearKept(contexts: Contexts, devId: string)
    requires Normal(KeptPart(contexts))
    ensures Normal(KeptPart(contexts - {devId}))
  {
    hide Storable;
    var after := contexts - {devId};
    forall k | k in KeptPart(after) ensures after[k].devId == k && Storable(after[k]) {
      assert KeptPart(contexts)[k] == contexts[k];
    }
  }

  function AfterChanges(changes: seq<Change>): Contexts {
    if changes == [] then map[] else Changed(AfterChanges(changes[..|changes| - 1]), changes[|changes| - 1])
  }

  /** Every job stored is inactive or fit for the file. */
  predicate FitChanges(changes: seq<Change>) {
    forall i | 0 <= i < |changes| && changes[i].Updated? :: Storable(changes[i].context) || !changes[i].context.active
  }

  lemma {:induction false} ChangesKept(changes: seq<Change>)
    requires FitChanges(changes)
    ensures Normal(KeptPart(AfterChanges(changes)))
  {
    assert Normal(KeptPart(map[]));
    hide Storable, KeptPart, Normal, LoadContexts;
    if changes != [] {
      var last := changes[|changes| - 1];
      var before := AfterChanges(changes[..|changes| - 1]);
      ChangesKept(changes[..|changes| - 1]);
      match last
      case Loaded(text) =>
        if text.Some? {
          LoadNormal(text.value);
          NormalKept(LoadContexts(text.value));
        }
      case Cleared(devId) =>
        ClearKept(before, devId);
      case Updated(context) =>
        UpdateKept(before, context);
    }
  }

  /**
   After any history of loads, updates and clears, whatever the files held, writing the jobs and
   restarting from the file leaves every rewrite as it was.
   */
  lemma RestartUnnoticed(changes: seq<Change>, order: seq<string>, deviceId: string, message: string)
    requires FitChanges(changes) && Walks(order, AfterChanges(changes)) && deviceId != ""
    ensures var contexts := AfterChanges(changes);
            RewriteStatus(ActiveJob(LoadContexts(PersistContexts(contexts, order)), deviceId), message) ==
            RewriteStatus(ActiveJob(contexts, deviceId), message)
  {
    hide *;
    ChangesKept(changes);
    RestartKeepsRewrites(AfterChanges(changes), order, deviceId, message);
  }

  lemma KeptOverride(names: Names, json: string)
    ensures ApplyOverride(NamesKept(names), json) == ApplyOverride(names, json)
  {
    hide JsonStringField, ValueStart, ValueEnd;
  }

  /** The same for names: a restarted client renames every announcement as before. */
  lemma RestartKeepsNames(names: Names, order: seq<string>, json: string)
    requires (set k | k in order) == names.Keys && NormalNames(NamesKept(names))
    ensures ApplyOverride(LoadNames(PersistNames(names, order)), json) == ApplyOverride(names, json)
  {
    hide *;
    PersistLoadNamesIff(names, order);
    KeptOverride(names, json);
  }
}
