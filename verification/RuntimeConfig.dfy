/** Deferred model, permission and reasoning-effort changes, and what a session switch
    restores. */
module RuntimeConfig {
  import opened Results

  datatype Profile = Profile(id: string, efforts: seq<string>)

  datatype Permission = Ask | Allow

  /** The agent as last built: from which model, at which effort, under which permission. */
  datatype Built = Built(model: string, effort: string, mode: Permission)

  const DEFAULT := "default"

  function Exact(profiles: seq<Profile>, key: string): (r: Option<Profile>)
    ensures r.Some? ==> r.value in profiles && r.value.id == key
    ensures r.None? ==> forall p | p in profiles :: p.id != key
  {
    if profiles == [] then None
    else if profiles[0].id == key then Some(profiles[0])
    else
      assert profiles == [profiles[0]] + profiles[1..];
      Exact(profiles[1..], key)
  }

  predicate NoRepeats(profiles: seq<Profile>) {
    forall i, j | 0 <= i < j < |profiles| :: profiles[i] != profiles[j]
  }

  function Prefixed(profiles: seq<Profile>, key: string): (r: seq<Profile>)
    ensures forall p :: p in r <==> p in profiles && key <= p.id
    ensures NoRepeats(profiles) ==> NoRepeats(r)
  {
    if profiles == [] then [] else
      var rest := Prefixed(profiles[1..], key);
      assert profiles == [profiles[0]] + profiles[1..];
      assert NoRepeats(profiles) ==> NoRepeats(profiles[1..]) && profiles[0] !in profiles[1..];
      if key <= profiles[0].id then [profiles[0]] + rest else rest
  }

  /** `get_profile`: an exact id, or else the only id with that prefix. */
  function GetProfile(profiles: seq<Profile>, key: string): (r: Option<Profile>)
    ensures r.Some? ==> r.value in profiles
  {
    if key == "" then None else
      var exact := Exact(profiles, key);
      var matches := Prefixed(profiles, key);
      if exact.Some? then exact else if |matches| == 1 then Some(matches[0]) else None
  }

  /** A key finds the profile it names, or else the only one it is a prefix of; it finds none when
      it is empty, matches nothing or is ambiguous. */
  lemma ProfileFound(profiles: seq<Profile>, key: string)
    requires NoRepeats(profiles)
    ensures var r := GetProfile(profiles, key);
            && (r.Some? ==> key != "" && key <= r.value.id)
            && (r.Some? && r.value.id != key ==> forall p | p in profiles && key <= p.id :: p == r.value)
            && (key != "" && (exists p :: p in profiles && p.id == key) ==> r.Some? && r.value.id == key)
            && (r.None? && key != "" && (exists p :: p in profiles && key <= p.id) ==>
                  exists p, q :: p in profiles && q in profiles && p != q && key <= p.id && key <= q.id)
  {
    var matches := Prefixed(profiles, key);
    assert forall p | p in profiles && key <= p.id :: p in matches;
    assert |matches| >= 2 ==> matches[0] in matches && matches[1] in matches;
  }

  predicate ListsEffort(profile: Profile, effort: string) {
    effort == DEFAULT || effort in profile.efforts
  }

  datatype Saved = Saved(model: string, mode: Permission, effort: string,
                         pendingModel: Option<string>, pendingMode: Option<Permission>,
                         pendingEffort: Option<string>)

  datatype Plan = Plan(model: string, mode: Permission, effort: string)

  /** `restore_plan`: what a switched-to session may run with.  It is always legal here. */
  function RestorePlan(settings: Option<seq<Profile>>, active: Profile, sandboxed: bool, saved: Saved): (plan: Plan)
    requires settings.Some? ==> active in settings.value
    ensures plan.mode.Allow? ==> sandboxed && saved.mode.Allow?
    ensures settings.None? ==> plan.model == "" && plan.effort == DEFAULT
    ensures settings.Some? ==>
              exists p | p in settings.value :: p.id == plan.model && ListsEffort(p, plan.effort)
    ensures plan.effort in {DEFAULT, saved.effort}
  {
    var profile :=
      if settings.None? then None
      else
        var named := GetProfile(settings.value, saved.model);
        if named.Some? then named else Some(active);
    var keeps := profile.Some? && saved.model == profile.value.id && ListsEffort(profile.value, saved.effort);
    Plan(if profile.Some? then profile.value.id else "",
         if saved.mode.Allow? && !sandboxed then Ask else saved.mode,
         if keeps then saved.effort else DEFAULT)
  }

  /** A restored plan keeps of the saved session whatever can be had here. */
  lemma RestoreKeeps(settings: Option<seq<Profile>>, active: Profile, sandboxed: bool, saved: Saved)
    requires settings.Some? ==> active in settings.value && NoRepeats(settings.value)
    ensures var plan := RestorePlan(settings, active, sandboxed, saved);
            && (saved.mode.Ask? || sandboxed ==> plan.mode == saved.mode)
            && (settings.Some? && saved.model != "" ==>
                  forall p | p in settings.value && p.id == saved.model
                             && (forall q | q in settings.value && q.id == p.id :: q == p) ::
                    plan.model == p.id && plan.effort == if ListsEffort(p, saved.effort) then saved.effort else DEFAULT)
            && (settings.Some? && (forall p | p in settings.value :: !(saved.model <= p.id)) ==>
                  plan.model == active.id && plan.effort == DEFAULT)
  {
    if settings.Some? {
      ProfileFound(settings.value, saved.model);
    }
  }

  /** Which of the fallible calls of an operation raises, if any. */
  datatype Fault = NoFault | BuildFails | CatalogFails

  class RunnerConfig {
    const settings: Option<seq<Profile>>
    const active: Profile
    const sandboxed: bool
    var model: string
    var effort: string
    var mode: Permission
    var pendingModel: Option<string>
    var pendingEffort: Option<string>
    var pendingMode: Option<Permission>
    /** `_chat_model`, by what it was built from, and `prepared`. */
    var chat: (string, string)
    var built: Built

    /** Profile ids are unique and non-empty. */
    ghost predicate SettingsValid() {
      settings.Some? ==>
        && active in settings.value
        && (forall p, q | p in settings.value && q in settings.value && p.id == q.id :: p == q)
        && (forall p | p in settings.value :: p.id != "")
    }

    /** Allow only in the sandbox, an effort the current model lists, and an agent built from
        exactly the recorded model, effort and permission. */
    ghost predicate Valid()
      reads this
    {
      && SettingsValid()
      && (mode.Allow? ==> sandboxed)
      && chat == (model, effort)
      && built == Built(model, effort, mode)
      && (settings.None? ==> effort == DEFAULT)
      && (settings.Some? ==> exists p | p in settings.value :: p.id == model && ListsEffort(p, effort))
    }

    ghost function Triple(): Built
      reads this
    {
      Built(model, effort, mode)
    }

    constructor (settings: Option<seq<Profile>>, active: Profile, sandboxed: bool, mode: Permission)
      requires settings.Some? ==>
        && active in settings.value
        && (forall p, q | p in settings.value && q in settings.value && p.id == q.id :: p == q)
        && (forall p | p in settings.value :: p.id != "")
      requires mode.Allow? ==> sandboxed
      ensures Valid() && Triple() == Built(active.id, DEFAULT, mode)
      ensures this.settings == settings && this.sandboxed == sandboxed
    {
      this.settings, this.active, this.sandboxed, this.mode := settings, active, sandboxed, mode;
      model, effort := active.id, DEFAULT;
      pendingModel, pendingEffort, pendingMode := None, None, None;
      chat, built := (active.id, DEFAULT), Built(active.id, DEFAULT, mode);
    }

    /** `current_model` */
    function CurrentModel(): (r: Option<Profile>)
      requires SettingsValid()
      reads this
      ensures r.Some? ==> settings.Some? && r.value in settings.value
      ensures settings.Some? ==> r.Some?
      ensures settings.Some? && (exists p | p in settings.value :: p.id == model) ==> r.value.id == model
    {
      if settings.None? then None else
        var named := GetProfile(settings.value, model);
        if named.Some? then named else Some(active)
    }

    /** The effort that a request for `profile` asks for. */
    function Chosen(profile: Profile, requested: Option<string>): string
      reads `model, `effort
    {
      if requested.Some? then requested.value else if profile.id == model then effort else DEFAULT
    }

    /** `request_model_change`: a request is accepted exactly when it names one profile that lists
        the effort asked for, and nothing changes but what is pending. */
    method RequestModelChange(key: string, requested: Option<string>) returns (accepted: Option<Profile>)
      requires Valid()
      modifies this`pendingModel, this`pendingEffort
      ensures Valid()
      ensures accepted.Some? <==>
                && settings.Some? && GetProfile(settings.value, key).Some?
                && var profile := GetProfile(settings.value, key).value;
                   ListsEffort(profile, Chosen(profile, requested))
      ensures accepted.None? ==> pendingModel == old(pendingModel) && pendingEffort == old(pendingEffort)
      ensures accepted.Some? ==>
                && accepted == GetProfile(settings.value, key)
                && Pends(accepted.value, requested)
    {
      if settings.None? {
        return None;
      }
      accepted := GetProfile(settings.value, key);
      if accepted.None? {
        return;
      }
      var chosen := Chosen(accepted.value, requested);
      if !ListsEffort(accepted.value, chosen) {
        return None;
      }
      pendingModel := if accepted.value.id != model then Some(accepted.value.id) else None;
      pendingEffort := if pendingModel.Some? || chosen != effort then Some(chosen) else None;
    }

    /** `request_permission_change` */
    method RequestPermissionChange(wanted: Permission) returns (accepted: bool)
      requires Valid()
      modifies this`pendingMode
      ensures Valid()
      ensures accepted <==> wanted.Ask? || sandboxed
      ensures pendingMode == if !accepted then old(pendingMode) else if wanted == mode then None else Some(wanted)
    {
      if wanted.Allow? && !sandboxed {
        return false;
      }
      pendingMode := if wanted != mode then Some(wanted) else None;
      return true;
    }

    /** `_rebuild_prepared`, unless building raises. */
    method Rebuild(newChat: (string, string), newMode: Permission, fault: Fault) returns (ok: bool)
      modifies this`chat, this`built
      ensures ok <==> !fault.BuildFails?
      ensures ok ==> chat == newChat && built == Built(newChat.0, newChat.1, newMode)
      ensures !ok ==> chat == old(chat) && built == old(built)
    {
      if fault.BuildFails? {
        return false;
      }
      built := Built(newChat.0, newChat.1, newMode);
      chat := newChat;
      return true;
    }

    /** What the queued changes resolve to: an unavailable model drops the model and effort
        changes, an unavailable effort becomes the default, and Allow outside the sandbox is
        dropped. */
    ghost function Wanted(): Built
      requires SettingsValid()
      reads this
    {
      var profile :=
        if pendingModel.Some? && settings.Some? then GetProfile(settings.value, pendingModel.value) else None;
      var lost := pendingModel.Some? && profile.None?;
      var base := if profile.Some? then profile else CurrentModel();
      var asked := if lost then None
                   else if pendingModel.Some? && pendingEffort.None? then Some(DEFAULT) else pendingEffort;
      Built(if profile.Some? then profile.value.id else model,
            if asked.None? then effort
            else if base.Some? && ListsEffort(base.value, asked.value) then asked.value else DEFAULT,
            if pendingMode.None? || (pendingMode == Some(Allow) && !sandboxed) then mode else pendingMode.value)
    }

    /** What an accepted request leaves pending: only what differs from the current session. */
    ghost predicate Pends(profile: Profile, requested: Option<string>)
      reads `model, `effort, `pendingModel, `pendingEffort
    {
      && pendingModel == (if profile.id == model then None else Some(profile.id))
      && pendingEffort == if pendingModel.Some? || Chosen(profile, requested) != effort
                          then Some(Chosen(profile, requested)) else None
    }

    /** An accepted model request takes effect as asked: what it leaves pending resolves to the
        requested profile and effort. */
    lemma RequestIsHonoured(profile: Profile, requested: Option<string>)
      requires Valid() && settings.Some? && profile in settings.value
      requires ListsEffort(profile, Chosen(profile, requested)) && Pends(profile, requested)
      ensures Wanted().model == profile.id
      ensures requested.Some? ==> Wanted().effort == requested.value
      ensures requested.None? ==> Wanted().effort == if profile.id == model then effort else DEFAULT
    {
      var found := Exact(settings.value, profile.id);
      assert found == Some(profile);
      assert GetProfile(settings.value, profile.id) == found;
    }

    /** So does an accepted permission request, and what is not pending stays as it is. */
    lemma PermissionIsHonoured(wanted: Permission)
      requires Valid() && (wanted.Ask? || sandboxed)
      requires pendingMode == if wanted == mode then None else Some(wanted)
      ensures Wanted().mode == wanted
      ensures pendingModel.None? ==> Wanted().model == model
      ensures pendingModel.None? && pendingEffort.None? ==> Wanted().effort == effort
    {
    }

    /** A queued change that cannot be had here is dropped: an unknown model together with the effort, an
        effort that the model does not list for the default, and Allow outside the sandbox. */
    lemma UnavailableIsDropped()
      requires Valid()
      ensures pendingMode == Some(Allow) && !sandboxed ==> Wanted().mode == mode
      ensures pendingModel.Some? && (settings.None? || GetProfile(settings.value, pendingModel.value).None?) ==>
                Wanted().model == model && Wanted().effort == effort
      ensures settings.Some? && pendingModel.Some? && GetProfile(settings.value, pendingModel.value).Some? ==>
                && var profile := GetProfile(settings.value, pendingModel.value).value;
                && Wanted().model == profile.id
                && (pendingEffort.None? ==> Wanted().effort == "default")
                && (pendingEffort.Some? && pendingEffort.value in profile.efforts ==>
                      Wanted().effort == pendingEffort.value)
                && (pendingEffort.Some? && pendingEffort.value !in profile.efforts ==> Wanted().effort == "default")
    {
    }

    /** A session that is saved and restored here keeps its configuration. */
    lemma SavedIsRestored(saved: Saved)
      requires Valid() && (settings.Some? ==> NoRepeats(settings.value))
      requires saved.model == model && saved.mode == mode && saved.effort == effort
      ensures RestorePlan(settings, active, sandboxed, saved) ==
              Plan(if settings.Some? then model else "", mode, effort)
    {
      RestoreKeeps(settings, active, sandboxed, saved);
    }

    /** Whatever is queued, what it resolves to is legal here. */
    lemma WantedIsLegal()
      requires Valid()
      ensures Wanted().mode.Allow? ==> sandboxed
      ensures settings.None? ==> Wanted().model == model && Wanted().effort == DEFAULT
      ensures settings.Some? ==>
                exists p :: p in settings.value && p.id == Wanted().model && ListsEffort(p, Wanted().effort)
    {
      if settings.Some? {
        var current := CurrentModel().value;
        assert current in settings.value && current.id == model;
        var queued := if pendingModel.Some? then GetProfile(settings.value, pendingModel.value) else None;
        var p := if queued.Some? then queued.value else current;
        assert p.id == Wanted().model && ListsEffort(p, Wanted().effort);
      }
    }

    /** The checks at the start of `_apply_pending_runtime_config`. */
    method ResolvePending() returns (
      profile: Option<Profile>, newModel: bool, newMode: Option<Permission>, newEffort: Option<string>)
      requires Valid()
      ensures Wanted() == Built(if newModel && profile.Some? then profile.value.id else model,
                                if newEffort.Some? then newEffort.value else effort,
                                if newMode.Some? then newMode.value else mode)
      ensures newModel ==> profile.Some? && newEffort.Some?
      ensures !newModel ==> profile == CurrentModel()
      ensures profile.Some? ==> settings.Some? && profile.value in settings.value
      ensures newEffort.Some? && profile.Some? ==> ListsEffort(profile.value, newEffort.value)
      ensures newEffort.Some? && profile.None? ==> newEffort.value == DEFAULT
      ensures newMode == Some(Allow) ==> sandboxed
    {
      profile := CurrentModel();
      newModel, newMode, newEffort := false, pendingMode, pendingEffort;
      if pendingModel.Some? {
        var found := if settings.None? then None else GetProfile(settings.value, pendingModel.value);
        if found.Some? {
          profile, newModel := found, true;
          if newEffort.None? {
            newEffort := Some(DEFAULT);
          }
        } else {
          newEffort := None;
        }
      }
      if newEffort.Some? && newEffort.value != DEFAULT
         && (profile.None? || newEffort.value !in profile.value.efforts) {
        newEffort := Some(DEFAULT);
      }
      if newMode == Some(Allow) && !sandboxed {
        newMode := None;
      }
    }

    /** `_apply_pending_runtime_config`: everything or nothing.  The agent, and the recorded
        model, effort and permission, move together to what the queued changes resolve to,
        or stay where they were when a rebuild or the catalog write fails. */
    method ApplyPending(fault: Fault, toolsetDirty: bool)
      requires Valid()
      modifies this
      ensures Valid()
      ensures pendingModel.None? && pendingEffort.None? && pendingMode.None?
      ensures Triple() == if fault.NoFault? then old(Wanted()) else old(Triple())
    {
      hide GetProfile, ListsEffort, SettingsValid;
      if pendingModel.None? && pendingMode.None? && pendingEffort.None? && !toolsetDirty {
        return;
      }
      var profile, newModel, newMode, newEffort := ResolvePending();
      if newModel || newMode.Some? || newEffort.Some? || toolsetDirty {
        var previousChat, previousBuilt := chat, built;
        var targetMode := if newMode.Some? then newMode.value else mode;
        var targetEffort := if newEffort.Some? then newEffort.value else effort;
        var targetChat := if profile.Some? && (newModel || newEffort.Some?)
                          then (profile.value.id, targetEffort) else chat;
        var ok := Rebuild(targetChat, targetMode, fault);
        if !ok || fault.CatalogFails? {
          chat, built := previousChat, previousBuilt;
          newModel, newMode, newEffort := false, None, None;
        }
      }
      model := if newModel then profile.value.id else model;
      mode := if newMode.Some? then newMode.value else mode;
      effort := if newEffort.Some? then newEffort.value else effort;
      pendingModel, pendingMode, pendingEffort := None, None, None;
    }

    /** `_apply_restore_plan`, unless building raises. */
    method ApplyPlan(plan: Plan, fault: Fault) returns (ok: bool)
      requires Valid()
      requires plan.mode.Allow? ==> sandboxed
      requires settings.None? ==> plan.effort == DEFAULT
      requires settings.Some? ==>
        exists p | p in settings.value :: p.id == plan.model && ListsEffort(p, plan.effort)
      modifies this`chat, this`built, this`model, this`effort, this`mode
      ensures ok ==> Valid() && effort == plan.effort && mode == plan.mode
      ensures ok && settings.Some? ==> model == plan.model
      ensures ok && settings.None? ==> model == old(model)
      ensures !ok ==> fault.BuildFails? && Triple() == old(Triple())
    {
      ok := true;
      if settings.Some? && plan.model != "" && (plan.model != model || plan.effort != effort) {
        var profile := GetProfile(settings.value, plan.model);
        ok := Rebuild((profile.value.id, plan.effort), plan.mode, fault);
        if !ok {
          return;
        }
        model := profile.value.id;
      } else if plan.mode != mode {
        ok := Rebuild(chat, plan.mode, fault);
        if !ok {
          return;
        }
      }
      effort := plan.effort;
      mode := plan.mode;
    }

    /** A queued model that the settings no longer offer. */
    predicate Unavailable(key: Option<string>) {
      key.Some? && key.value != "" && settings.Some? && GetProfile(settings.value, key.value).None?
    }

    /** It is the prefix of no profile, or of several and the id of none. */
    lemma UnavailableIff(key: string)
      requires settings.Some? && NoRepeats(settings.value)
      ensures !Unavailable(None)
      ensures Unavailable(Some(key)) <==>
                && key != "" && (forall p | p in settings.value :: p.id != key)
                && !exists p :: p in settings.value && key <= p.id
                                && forall q | q in settings.value && key <= q.id :: q == p
    {
      ProfileFound(settings.value, key);
    }

    /** The configuration part of `_load_and_commit_switch`: the plan of the target session
        takes effect with its pending changes, or everything is rolled back. */
    method Switch(saved: Saved, loads: bool, fault: Fault) returns (ok: bool)
      requires Valid()
      modifies this
      ensures Valid()
      ensures ok ==>
                var plan := RestorePlan(settings, active, sandboxed, saved);
                && effort == plan.effort && mode == plan.mode
                && (settings.Some? ==> model == plan.model)
                && pendingMode == (if saved.pendingMode == Some(Allow) && !sandboxed then None else saved.pendingMode)
                && pendingModel == (if Unavailable(saved.pendingModel) then None else saved.pendingModel)
                && pendingEffort == (if Unavailable(saved.pendingModel) then None else saved.pendingEffort)
      ensures ok ==> loads && !fault.CatalogFails?
      ensures !ok ==> Triple() == old(Triple()) && pendingModel == old(pendingModel)
                      && pendingEffort == old(pendingEffort) && pendingMode == old(pendingMode)
      ensures loads && fault.NoFault? ==> ok
    {
      var oldModel, oldEffort, oldMode, oldChat := model, effort, mode, chat;
      var plan := RestorePlan(settings, active, sandboxed, saved);
      ok := loads;
      if ok {
        ok := ApplyPlan(plan, fault);
      }
      if ok && fault.CatalogFails? {
        ok := false;
      }
      if !ok {
        var rebuilt := Rebuild(oldChat, oldMode, NoFault);
        model, effort, mode := oldModel, oldEffort, oldMode;
        return;
      }
      pendingModel, pendingEffort := saved.pendingModel, saved.pendingEffort;
      pendingMode := saved.pendingMode;
      if Unavailable(pendingModel) {
        pendingModel, pendingEffort := None, None;
      }
      if pendingMode == Some(Allow) && !sandboxed {
        pendingMode := None;
      }
    }
  }
}
