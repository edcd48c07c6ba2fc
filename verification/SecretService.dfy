/** The credential and workflow handlers as they run: writes to the vault and to the rows in the source's order. `steps`
    is how many writes happen before the process fails; a call that outlives its writes completes. */
module SecretService {
  import opened Schema
  import opened SecretKeys

  lemma AfterSteps(s: Stores, call: Call, steps: nat)
    ensures steps < |Plan(s, call)| ==> After(s, call, steps + 1) == Do(After(s, call, steps), Plan(s, call)[steps])
    ensures After(s, call, 0) == s
    ensures steps >= |Plan(s, call)| ==> After(s, call, steps) == After(s, call, |Plan(s, call)|)
  {
    var plan := Plan(s, call);
    assert plan[..0] == [] && plan[..|plan|] == plan;
    if steps < |plan| {
      DoNext(s, plan, steps);
    }
  }

  class Service {
    var vault: map<Uri, string>
    var credentials: map<Id, SecretKeys.Credential>
    var workflows: map<Id, SecretKeys.Workflow>

    constructor ()
      ensures StoresInv(Now())
    {
      vault, credentials, workflows := map[], map[], map[];
    }

    ghost function Now(): Stores
      reads this
    {
      Stores(vault, credentials, workflows)
    }

    // ---------- credentials.py ----------

    /** The secret is stored first, then the row is committed. */
    method CreateCredential(id: Id, tenant: Id, name: string, secret: string, steps: nat) returns (ok: bool)
      modifies this
      ensures Now() == After(old(Now()), SecretKeys.CreateCredential(id, tenant, name, secret), steps)
      ensures ok <==> steps >= 2
    {
      ghost var s, call := Now(), SecretKeys.CreateCredential(id, tenant, name, secret);
      AfterSteps(s, call, 0); AfterSteps(s, call, 1); AfterSteps(s, call, steps);
      if steps < 1 { return false; }
      var uri := CredentialUri(tenant, id);
      vault := vault[uri := secret];
      if steps < 2 { return false; }
      credentials := credentials[id := Credential(tenant, uri, name)];
      ok := true;
    }

    /** The vault's refusal of the new secret is not looked at: the row is committed and the call succeeds either way. */
    method UpdateCredential(id: Id, tenant: Id, name: string, newSecret: Option<string>, accepted: bool, steps: nat) returns (ok: bool)
      modifies this
      ensures Now() == After(old(Now()), SecretKeys.UpdateCredential(id, tenant, name, newSecret, accepted), steps)
      ensures ok <==> CredentialIn(old(Now()), tenant, id) && steps >= |Plan(old(Now()), SecretKeys.UpdateCredential(id, tenant, name, newSecret, accepted))|
    {
      ghost var s, call := Now(), SecretKeys.UpdateCredential(id, tenant, name, newSecret, accepted);
      AfterSteps(s, call, 0); AfterSteps(s, call, 1); AfterSteps(s, call, steps);
      if id !in credentials || credentials[id].tenant != tenant { return false; }
      var left := steps;
      if newSecret.Some? && accepted {
        if left < 1 { return false; }
        vault := vault[credentials[id].uri := newSecret.value];
        left := left - 1;
      }
      if left < 1 { return false; }
      credentials := credentials[id := credentials[id].(name := name)];
      ok := true;
    }

    /** The secret is removed before the deletion of the row commits. */
    method DeleteCredential(id: Id, tenant: Id, removed: bool, steps: nat) returns (ok: bool)
      modifies this
      ensures Now() == After(old(Now()), SecretKeys.DeleteCredential(id, tenant, removed), steps)
      ensures ok <==> CredentialIn(old(Now()), tenant, id) && steps >= |Plan(old(Now()), SecretKeys.DeleteCredential(id, tenant, removed))|
    {
      ghost var s, call := Now(), SecretKeys.DeleteCredential(id, tenant, removed);
      AfterSteps(s, call, 0); AfterSteps(s, call, 1); AfterSteps(s, call, steps);
      if id !in credentials || credentials[id].tenant != tenant { return false; }
      var uri, left := credentials[id].uri, steps;
      if removed {
        if left < 1 { return false; }
        vault := vault - {uri};
        left := left - 1;
      }
      if left < 1 { return false; }
      credentials := credentials - {id};
      ok := true;
    }

    // ---------- workflows.py ----------

    method CreateWorkflow(id: Id, tenant: Id, allowKeys: bool, withVault: bool, primary: string, secondary: string, steps: nat) returns (ok: bool)
      modifies this
      ensures Now() == After(old(Now()), SecretKeys.CreateWorkflow(id, tenant, allowKeys, withVault, primary, secondary), steps)
      ensures ok <==> steps >= if withVault then 3 else 1
    {
      ghost var s, call := Now(), SecretKeys.CreateWorkflow(id, tenant, allowKeys, withVault, primary, secondary);
      AfterSteps(s, call, 0); AfterSteps(s, call, 1); AfterSteps(s, call, 2); AfterSteps(s, call, steps);
      var primaryUri, secondaryUri, left := None, None, steps;
      if withVault {
        if left < 1 { return false; }
        vault := vault[KeyUri(tenant, id, Primary) := primary];
        primaryUri := Some(KeyUri(tenant, id, Primary));
        if left < 2 { return false; }
        vault := vault[KeyUri(tenant, id, Secondary) := secondary];
        secondaryUri := Some(KeyUri(tenant, id, Secondary));
        left := left - 2;
      }
      if left < 1 { return false; }
      workflows := workflows[id := Workflow(tenant, primaryUri, secondaryUri, allowKeys)];
      ok := true;
    }

    /** A copy gets keys of its own, under the copied permission to use keys. */
    method DuplicateWorkflow(id: Id, tenant: Id, source: Id, withVault: bool, primary: string, secondary: string, steps: nat) returns (ok: bool)
      modifies this
      ensures Now() == After(old(Now()), SecretKeys.DuplicateWorkflow(id, tenant, source, withVault, primary, secondary), steps)
      ensures ok <==> WorkflowIn(old(Now()), tenant, source) && steps >= if withVault then 3 else 1
    {
      ghost var s, call := Now(), SecretKeys.DuplicateWorkflow(id, tenant, source, withVault, primary, secondary);
      AfterSteps(s, call, 0); AfterSteps(s, call, steps);
      if source !in workflows || workflows[source].tenant != tenant { return false; }
      ok := CreateWorkflow(id, tenant, workflows[source].allowKeys, withVault, primary, secondary, steps);
    }

    /** An existing slot's secret is overwritten in place; a missing one is stored and the row is made to name it. */
    method RotateApiKey(id: Id, tenant: Id, slot: Slot, key: string, steps: nat) returns (rotated: Option<string>)
      modifies this
      ensures Now() == After(old(Now()), RotateKey(id, tenant, slot, key), steps)
      ensures rotated == if Plan(old(Now()), RotateKey(id, tenant, slot, key)) != [] && steps >= 2 then Some(key) else None
    {
      ghost var s, call := Now(), RotateKey(id, tenant, slot, key);
      AfterSteps(s, call, 0); AfterSteps(s, call, 1); AfterSteps(s, call, steps);
      if id !in workflows || workflows[id].tenant != tenant { return None; }
      var row := workflows[id];
      if !row.allowKeys { return None; }
      if steps < 1 { return None; }
      var uri := row.UriAt(slot);
      if uri.Some? {
        vault := vault[uri.value := key];
      } else {
        vault := vault[KeyUri(tenant, id, slot) := key];
        row := row.WithUri(slot, KeyUri(tenant, id, slot));
      }
      if steps < 2 { return None; }
      workflows := workflows[id := row];
      rotated := Some(key);
    }

    /** One best-effort removal; None when the process fails before it. */
    method RemoveKey(uri: Option<Uri>, succeeds: bool, left: nat) returns (rest: Option<nat>)
      modifies `vault
      ensures rest == if uri.None? || !succeeds then Some(left) else if left == 0 then None else Some(left - 1)
      ensures vault == if uri.Some? && succeeds && left > 0 then old(vault) - {uri.value} else old(vault)
    {
      if uri.None? || !succeeds { return Some(left); }
      if left == 0 { return None; }
      vault := vault - {uri.value};
      rest := Some(left - 1);
    }

    /** `for vault_uri_attr in (primary, secondary)`: best-effort removals, then the row. */
    method DeleteWorkflow(id: Id, tenant: Id, removed: set<Slot>, steps: nat) returns (ok: bool)
      modifies this
      ensures Now() == After(old(Now()), SecretKeys.DeleteWorkflow(id, tenant, removed), steps)
      ensures ok <==> WorkflowIn(old(Now()), tenant, id) && steps >= |Plan(old(Now()), SecretKeys.DeleteWorkflow(id, tenant, removed))|
    {
      ghost var s, call := Now(), SecretKeys.DeleteWorkflow(id, tenant, removed);
      AfterSteps(s, call, 0); AfterSteps(s, call, steps);
      if id !in workflows || workflows[id].tenant != tenant { return false; }
      var row, left := workflows[id], steps;
      var slots, i := [Primary, Secondary], 0;
      ghost var done := 0;
      while i < 2
        invariant 0 <= i <= 2 && done + left == steps && credentials == s.credentials && workflows == s.workflows
        invariant done == RemovedBefore(row, removed, i)
        invariant Now() == After(s, call, done)
      {
        var uri := row.UriAt(slots[i]);
        RemovalStep(s, call, row, i);
        AfterSteps(s, call, done);
        var rest := RemoveKey(uri, slots[i] in removed, left);
        if rest.None? { return false; }
        done := done + (left - rest.value);
        left := rest.value;
        i := i + 1;
      }
      RemovalStep(s, call, row, 2);
      AfterSteps(s, call, done);
      if left < 1 { return false; }
      workflows := workflows - {id};
      ok := true;
    }
  }

  function RemovedBefore(row: SecretKeys.Workflow, removed: set<Slot>, i: nat): nat {
    (if i >= 1 then |RemoveWrites(row, Primary, removed)| else 0) + (if i >= 2 then |RemoveWrites(row, Secondary, removed)| else 0)
  }

  /** Which write of a workflow's deletion comes next after `i` of its keys. */
  lemma RemovalStep(s: Stores, call: Call, row: SecretKeys.Workflow, i: nat)
    requires call.DeleteWorkflow? && WorkflowIn(s, call.tenant, call.id) && row == s.workflows[call.id] && i <= 2
    ensures var plan, done := Plan(s, call), RemovedBefore(row, call.removedKeys, i);
      && done < |plan|
      && (i == 2 ==> |plan| == done + 1 && plan[done] == DropWorkflow(call.id))
      && (i < 2 ==> var slot := [Primary, Secondary][i];
            RemovedBefore(row, call.removedKeys, i + 1) == done + |RemoveWrites(row, slot, call.removedKeys)|
            && (row.UriAt(slot).Some? && slot in call.removedKeys ==> plan[done] == Remove(row.UriAt(slot).value)))
  {
    var first, second := RemoveWrites(row, Primary, call.removedKeys), RemoveWrites(row, Secondary, call.removedKeys);
    assert Plan(s, call) == first + second + [DropWorkflow(call.id)];
  }
}
