/** Secrets live in a vault, the URIs that name them in database rows. Every call is a plan of single writes to one
    store or the other, any of which may be the last one to happen. */
module SecretKeys {
  import opened Text
  import opened Schema

  type Uri = string

  datatype Slot = Primary | Secondary

  datatype Credential = Credential(tenant: Id, uri: Uri, name: string)

  datatype Workflow = Workflow(tenant: Id, primary: Option<Uri>, secondary: Option<Uri>, allowKeys: bool) {
    function UriAt(slot: Slot): Option<Uri> {
      if slot == Primary then primary else secondary
    }

    function WithUri(slot: Slot, uri: Uri): Workflow {
      if slot == Primary then this.(primary := Some(uri)) else this.(secondary := Some(uri))
    }
  }

  datatype Stores = Stores(vault: map<Uri, string>, credentials: map<Id, Credential>, workflows: map<Id, Workflow>)

  // ---------- URIs: `store_secret` maps a key to its URI injectively ----------

  const SCHEME := "vault://"

  function CredentialUri(tenant: Id, credential: Id): Uri {
    SCHEME + Join('/', [tenant, credential])
  }

  function SlotName(slot: Slot): string {
    if slot == Primary then "primary-key" else "secondary-key"
  }

  function KeyUri(tenant: Id, workflow: Id, slot: Slot): Uri {
    SCHEME + Join('/', [tenant, "workflows", workflow, SlotName(slot)])
  }

  predicate PlainId(id: Id) {
    '/' !in id
  }

  lemma UrisDiffer(t: Id, w: Id, slot: Slot, t': Id, w': Id, slot': Slot, c: Id)
    requires PlainId(t) && PlainId(w) && PlainId(t') && PlainId(w') && PlainId(c)
    ensures KeyUri(t, w, slot) == KeyUri(t', w', slot') ==> t == t' && w == w' && slot == slot'
    ensures KeyUri(t, w, slot) != CredentialUri(t', c)
  {
    var a, b := [t, "workflows", w, SlotName(slot)], [t', "workflows", w', SlotName(slot')];
    assert KeyUri(t, w, slot)[|SCHEME|..] == Join('/', a) && KeyUri(t', w', slot')[|SCHEME|..] == Join('/', b);
    assert CredentialUri(t', c)[|SCHEME|..] == Join('/', [t', c]);
    JoinInjective('/', a, b);
    JoinInjective('/', a, [t', c]);
    assert a[0] == t && a[2] == w && a[3] == SlotName(slot);
    assert b[0] == t' && b[2] == w' && b[3] == SlotName(slot');
  }

  // ---------- Single writes ----------

  datatype Write =
    | Put(uri: Uri, secret: string)
    | Remove(uri: Uri)
    | CommitCredential(id: Id, credential: Credential)
    | CommitWorkflow(id: Id, workflow: Workflow)
    | DropCredential(id: Id)
    | DropWorkflow(id: Id)

  function Do(s: Stores, w: Write): Stores {
    match w
    case Put(uri, secret) => s.(vault := s.vault[uri := secret])
    case Remove(uri) => s.(vault := s.vault - {uri})
    case CommitCredential(id, credential) => s.(credentials := s.credentials[id := credential])
    case CommitWorkflow(id, workflow) => s.(workflows := s.workflows[id := workflow])
    case DropCredential(id) => s.(credentials := s.credentials - {id})
    case DropWorkflow(id) => s.(workflows := s.workflows - {id})
  }

  function DoAll(s: Stores, writes: seq<Write>): Stores
    decreases |writes|
  {
    if writes == [] then s else DoAll(Do(s, writes[0]), writes[1..])
  }

  // ---------- Calls, as the writes they make in order ----------

  datatype Call =
    | CreateCredential(id: Id, tenant: Id, name: string, secret: string)
    | UpdateCredential(id: Id, tenant: Id, name: string, newSecret: Option<string>, accepted: bool)
    | DeleteCredential(id: Id, tenant: Id, removed: bool)
    | CreateWorkflow(id: Id, tenant: Id, allowKeys: bool, withVault: bool, primary: string, secondary: string)
    | DuplicateWorkflow(id: Id, tenant: Id, source: Id, withVault: bool, primary: string, secondary: string)
    | RotateKey(id: Id, tenant: Id, slot: Slot, key: string)
    | DeleteWorkflow(id: Id, tenant: Id, removedKeys: set<Slot>)

  predicate CredentialIn(s: Stores, tenant: Id, id: Id) {
    id in s.credentials && s.credentials[id].tenant == tenant
  }

  predicate WorkflowIn(s: Stores, tenant: Id, id: Id) {
    id in s.workflows && s.workflows[id].tenant == tenant
  }

  /** Both keys go to the vault before the row that names them is committed; without a vault the row names none. */
  function NewWorkflowWrites(id: Id, tenant: Id, allowKeys: bool, withVault: bool, primary: string, secondary: string): seq<Write> {
    if withVault then
      [Put(KeyUri(tenant, id, Primary), primary), Put(KeyUri(tenant, id, Secondary), secondary),
       CommitWorkflow(id, Workflow(tenant, Some(KeyUri(tenant, id, Primary)), Some(KeyUri(tenant, id, Secondary)), allowKeys))]
    else [CommitWorkflow(id, Workflow(tenant, None, None, allowKeys))]
  }

  /** A key's removal is attempted when the row names it; a failure is only logged. */
  function RemoveWrites(workflow: Workflow, slot: Slot, removed: set<Slot>): seq<Write> {
    if workflow.UriAt(slot).Some? && slot in removed then [Remove(workflow.UriAt(slot).value)] else []
  }

  /** The writes of a call; a call on a missing row, or one whose keys are not allowed, makes none. */
  function Plan(s: Stores, call: Call): seq<Write> {
    match call
    case CreateCredential(id, tenant, name, secret) =>
      [Put(CredentialUri(tenant, id), secret), CommitCredential(id, Credential(tenant, CredentialUri(tenant, id), name))]
    case UpdateCredential(id, tenant, name, secret, accepted) =>
      if !CredentialIn(s, tenant, id) then []
      else
        (if secret.Some? && accepted then [Put(s.credentials[id].uri, secret.value)] else [])
        + [CommitCredential(id, s.credentials[id].(name := name))]
    case DeleteCredential(id, tenant, removed) =>
      if !CredentialIn(s, tenant, id) then []
      else (if removed then [Remove(s.credentials[id].uri)] else []) + [DropCredential(id)]
    case CreateWorkflow(id, tenant, allowKeys, withVault, primary, secondary) =>
      NewWorkflowWrites(id, tenant, allowKeys, withVault, primary, secondary)
    case DuplicateWorkflow(id, tenant, source, withVault, primary, secondary) =>
      if !WorkflowIn(s, tenant, source) then []
      else NewWorkflowWrites(id, tenant, s.workflows[source].allowKeys, withVault, primary, secondary)
    case RotateKey(id, tenant, slot, key) =>
      if !WorkflowIn(s, tenant, id) || !s.workflows[id].allowKeys then []
      else if s.workflows[id].UriAt(slot).Some? then
        [Put(s.workflows[id].UriAt(slot).value, key), CommitWorkflow(id, s.workflows[id])]
      else
        [Put(KeyUri(tenant, id, slot), key), CommitWorkflow(id, s.workflows[id].WithUri(slot, KeyUri(tenant, id, slot)))]
    case DeleteWorkflow(id, tenant, removed) =>
      if !WorkflowIn(s, tenant, id) then []
      else
        RemoveWrites(s.workflows[id], Primary, removed) + RemoveWrites(s.workflows[id], Secondary, removed) + [DropWorkflow(id)]
  }

  /** The stores after a call whose first `steps` writes happened. */
  function After(s: Stores, call: Call, steps: nat): Stores {
    var plan := Plan(s, call);
    DoAll(s, if steps <= |plan| then plan[..steps] else plan)
  }

  // ---------- The invariant ----------

  ghost predicate NoDangling(s: Stores) {
    && (forall c :: c in s.credentials ==> s.credentials[c].uri in s.vault)
    && (forall w, slot :: w in s.workflows && s.workflows[w].UriAt(slot).Some? ==> s.workflows[w].UriAt(slot).value in s.vault)
  }

  /** Rows name the URIs made from their own tenant and id. */
  ghost predicate OwnUris(s: Stores) {
    && (forall c :: c in s.credentials ==>
          PlainId(c) && PlainId(s.credentials[c].tenant) && s.credentials[c].uri == CredentialUri(s.credentials[c].tenant, c))
    && (forall w :: w in s.workflows ==> PlainId(w) && PlainId(s.workflows[w].tenant))
    && (forall w, slot :: w in s.workflows && s.workflows[w].UriAt(slot).Some? ==>
          s.workflows[w].UriAt(slot).value == KeyUri(s.workflows[w].tenant, w, slot))
  }

  ghost predicate StoresInv(s: Stores) {
    NoDangling(s) && OwnUris(s)
  }

  /** New ids are new and plain, and a deletion that removed a secret also committed. */
  predicate Allowed(s: Stores, call: Call, steps: nat) {
    match call
    case CreateCredential(id, tenant, _, _) => id !in s.credentials && PlainId(id) && PlainId(tenant)
    case CreateWorkflow(id, tenant, _, _, _, _) => id !in s.workflows && PlainId(id) && PlainId(tenant)
    case DuplicateWorkflow(id, tenant, _, _, _, _) => id !in s.workflows && PlainId(id) && PlainId(tenant)
    case DeleteCredential(_, _, _) => DeletionSafe(s, call, steps)
    case DeleteWorkflow(_, _, _) => DeletionSafe(s, call, steps)
    case _ => true
  }

  predicate DeletionSafe(s: Stores, call: Call, steps: nat) {
    steps == 0 || steps >= |Plan(s, call)|
  }

  lemma {:induction false} DoAllAppend(s: Stores, a: seq<Write>, b: seq<Write>)
    ensures DoAll(s, a + b) == DoAll(DoAll(s, a), b)
    decreases |a|
  {
    if a == [] {
      assert a + b == b;
    } else {
      assert (a + b)[1..] == a[1..] + b;
      DoAllAppend(Do(s, a[0]), a[1..], b);
    }
  }

  /** One write more. */
  lemma DoNext(s: Stores, plan: seq<Write>, i: nat)
    requires i < |plan|
    ensures DoAll(s, plan[..i + 1]) == Do(DoAll(s, plan[..i]), plan[i])
    ensures DoAll(s, plan[..0]) == s && plan[..|plan|] == plan
  {
    assert plan[..i + 1] == plan[..i] + [plan[i]];
    DoAllAppend(s, plan[..i], [plan[i]]);
    assert [plan[i]][1..] == [];
  }

  lemma DoTwo(s: Stores, plan: seq<Write>)
    requires |plan| == 2
    ensures DoAll(s, plan[..0]) == s && DoAll(s, plan[..1]) == Do(s, plan[0])
    ensures DoAll(s, plan[..2]) == DoAll(s, plan) == Do(Do(s, plan[0]), plan[1])
  {
    DoNext(s, plan, 0);
    DoNext(s, plan, 1);
  }

  /** Filling the vault before the row keeps the invariant after every single write: all that can be left behind is a
      secret no row names. */
  lemma PuttingKeeps(s: Stores, uri: Uri, secret: string)
    requires StoresInv(s)
    ensures StoresInv(Do(s, Put(uri, secret)))
  {
  }

  /** A row may be committed once the vault has what it names. */
  lemma CommittingKeeps(s: Stores, id: Id, row: Workflow)
    requires StoresInv(s) && PlainId(id) && PlainId(row.tenant)
    requires forall slot :: row.UriAt(slot).Some? ==>
      row.UriAt(slot).value == KeyUri(row.tenant, id, slot) && row.UriAt(slot).value in s.vault
    ensures StoresInv(Do(s, CommitWorkflow(id, row)))
  {
  }

  lemma NewWorkflowKeeps(s: Stores, id: Id, tenant: Id, allowKeys: bool, withVault: bool, primary: string, secondary: string, steps: nat)
    requires StoresInv(s) && PlainId(id) && PlainId(tenant)
    requires steps <= |NewWorkflowWrites(id, tenant, allowKeys, withVault, primary, secondary)|
    ensures StoresInv(DoAll(s, NewWorkflowWrites(id, tenant, allowKeys, withVault, primary, secondary)[..steps]))
  {
    var plan := NewWorkflowWrites(id, tenant, allowKeys, withVault, primary, secondary);
    DoNext(s, plan, 0);
    if withVault {
      DoNext(s, plan, 1);
      DoNext(s, plan, 2);
      PuttingKeeps(s, KeyUri(tenant, id, Primary), primary);
      var first := Do(s, plan[0]);
      PuttingKeeps(first, KeyUri(tenant, id, Secondary), secondary);
      CommittingKeeps(Do(first, plan[1]), id, plan[2].workflow);
    } else {
      CommittingKeeps(s, id, plan[0].workflow);
    }
  }

  lemma TwoWriteKeeps(s: Stores, plan: seq<Write>, steps: nat)
    requires StoresInv(s) && steps <= |plan| == 2
    requires StoresInv(Do(s, plan[0])) && StoresInv(Do(Do(s, plan[0]), plan[1]))
    ensures StoresInv(DoAll(s, plan[..steps]))
  {
    DoTwo(s, plan);
  }

  lemma CreateCredentialKeeps(s: Stores, call: Call, steps: nat)
    requires StoresInv(s) && call.CreateCredential? && Allowed(s, call, steps)
    ensures StoresInv(After(s, call, steps))
  {
    var plan := Plan(s, call);
    PuttingKeeps(s, plan[0].uri, call.secret);
    TwoWriteKeeps(s, plan, if steps <= 2 then steps else 2);
    assert plan[..2] == plan;
  }

  lemma UpdateCredentialKeeps(s: Stores, call: Call, steps: nat)
    requires StoresInv(s) && call.UpdateCredential?
    ensures StoresInv(After(s, call, steps))
  {
    var plan := Plan(s, call);
    if |plan| == 1 {
      DoNext(s, plan, 0);
    } else if |plan| == 2 {
      PuttingKeeps(s, plan[0].uri, call.newSecret.value);
      TwoWriteKeeps(s, plan, if steps <= 2 then steps else 2);
      assert plan[..2] == plan;
    } else {
      assert plan[..0] == [];
    }
  }

  lemma RotateKeeps(s: Stores, call: Call, steps: nat)
    requires StoresInv(s) && call.RotateKey?
    ensures StoresInv(After(s, call, steps))
  {
    var plan := Plan(s, call);
    if plan == [] {
      assert plan[..0] == [];
    } else {
      PuttingKeeps(s, plan[0].uri, call.key);
      var row := plan[1].workflow;
      assert forall slot :: slot != call.slot ==> row.UriAt(slot) == s.workflows[call.id].UriAt(slot);
      CommittingKeeps(Do(s, plan[0]), call.id, row);
      TwoWriteKeeps(s, plan, if steps <= 2 then steps else 2);
      assert plan[..2] == plan;
    }
  }

  // ---------- Deletion removes the secret first ----------

  /** Removals only take entries out of the vault. */
  lemma {:induction false} RemovalsThenDrop(s: Stores, writes: seq<Write>)
    requires forall i :: 0 <= i < |writes| ==> writes[i].Remove?
    ensures DoAll(s, writes).credentials == s.credentials && DoAll(s, writes).workflows == s.workflows
    ensures forall uri :: uri in DoAll(s, writes).vault <==> uri in s.vault && Remove(uri) !in writes
    decreases |writes|
  {
    if writes != [] {
      RemovalsThenDrop(Do(s, writes[0]), writes[1..]);
      assert writes == [writes[0]] + writes[1..];
    }
  }

  /** The removals a deletion plans, before its last write. */
  function Removals(s: Stores, call: Call): seq<Write>
    requires call.DeleteCredential? || call.DeleteWorkflow?
  {
    var plan := Plan(s, call);
    if plan == [] then [] else plan[..|plan| - 1]
  }

  lemma DeletionShape(s: Stores, call: Call)
    requires (call.DeleteCredential? || call.DeleteWorkflow?) && Plan(s, call) != []
    ensures Plan(s, call) == Removals(s, call) + [if call.DeleteCredential? then DropCredential(call.id) else DropWorkflow(call.id)]
    ensures forall i :: 0 <= i < |Removals(s, call)| ==> Removals(s, call)[i].Remove?
    ensures call.DeleteCredential? ==> CredentialIn(s, call.tenant, call.id)
    ensures call.DeleteCredential? ==> forall uri :: Remove(uri) in Removals(s, call) ==> uri == s.credentials[call.id].uri
    ensures call.DeleteWorkflow? ==> WorkflowIn(s, call.tenant, call.id)
    ensures call.DeleteWorkflow? ==>
      forall uri :: Remove(uri) in Removals(s, call) ==> exists slot: Slot :: s.workflows[call.id].UriAt(slot) == Some(uri)
  {
    if call.DeleteWorkflow? {
      var row := s.workflows[call.id];
      forall uri | Remove(uri) in Removals(s, call) ensures exists slot: Slot :: row.UriAt(slot) == Some(uri) {
        assert row.UriAt(Primary) == Some(uri) || row.UriAt(Secondary) == Some(uri);
      }
    }
  }

  /** Stopped after a removal and before the commit, the row still names what is gone. */
  lemma InterruptedDeletion(s: Stores, call: Call, steps: nat)
    requires StoresInv(s) && (call.DeleteCredential? || call.DeleteWorkflow?) && 0 < steps < |Plan(s, call)|
    ensures !NoDangling(DoAll(s, Plan(s, call)[..steps]))
  {
    DeletionShape(s, call);
    var done, removals := Plan(s, call)[..steps], Removals(s, call);
    assert done == removals[..steps];
    RemovalsThenDrop(s, done);
    var uri := done[0].uri;
    assert Remove(uri) in done && Remove(uri) in removals;
    if call.DeleteWorkflow? {
      var slot: Slot :| s.workflows[call.id].UriAt(slot) == Some(uri);
    }
  }

  lemma FinishedDeletion(s: Stores, call: Call)
    requires StoresInv(s) && (call.DeleteCredential? || call.DeleteWorkflow?) && Plan(s, call) != []
    ensures StoresInv(DoAll(s, Plan(s, call)))
  {
    DeletionShape(s, call);
    var plan, removals := Plan(s, call), Removals(s, call);
    RemovalsThenDrop(s, removals);
    DoNext(s, plan, |plan| - 1);
    assert plan[..|plan| - 1] == removals;
    CompletedDeletion(s, call, DoAll(s, removals));
  }

  /** An interrupted deletion leaves a dangling URI exactly when some secret had been removed: committed at the end, or
      stopped before the first removal, it leaves none. */
  lemma DeletionDanglesIff(s: Stores, call: Call, steps: nat)
    requires StoresInv(s) && (call.DeleteCredential? || call.DeleteWorkflow?)
    ensures NoDangling(After(s, call, steps)) <==> DeletionSafe(s, call, steps)
    ensures DeletionSafe(s, call, steps) ==> OwnUris(After(s, call, steps))
  {
    var plan := Plan(s, call);
    assert DoAll(s, plan[..0]) == s;
    if 0 < steps < |plan| {
      InterruptedDeletion(s, call, steps);
    } else if plan != [] {
      FinishedDeletion(s, call);
      assert plan[..|plan|] == plan;
    }
  }

  /** Once the row is gone nothing names what was removed: URIs belong to one row each. */
  lemma CompletedDeletion(s: Stores, call: Call, removed: Stores)
    requires StoresInv(s) && (call.DeleteCredential? || call.DeleteWorkflow?) && Plan(s, call) != []
    requires removed.credentials == s.credentials && removed.workflows == s.workflows
    requires forall uri :: uri in removed.vault <==> uri in s.vault && Remove(uri) !in Removals(s, call)
    ensures StoresInv(Do(removed, Plan(s, call)[|Plan(s, call)| - 1]))
  {
    DeletionShape(s, call);
    RemainingCredentials(s, call, removed);
    RemainingKeys(s, call, removed);
    if call.DeleteCredential? {
      CredentialDropKeeps(s, removed, call);
    } else {
      WorkflowDropKeeps(s, removed, call);
    }
  }

  lemma CredentialDropKeeps(s: Stores, removed: Stores, call: Call)
    requires StoresInv(s) && removed.credentials == s.credentials && removed.workflows == s.workflows && call.DeleteCredential?
    requires forall c :: c in s.credentials && Remains(call, true, c) ==> s.credentials[c].uri in removed.vault
    requires forall w, slot :: w in s.workflows && Remains(call, false, w) && s.workflows[w].UriAt(slot).Some? ==>
      s.workflows[w].UriAt(slot).value in removed.vault
    ensures StoresInv(Do(removed, DropCredential(call.id)))
  {
    assert forall w :: Remains(call, false, w);
  }

  lemma WorkflowDropKeeps(s: Stores, removed: Stores, call: Call)
    requires StoresInv(s) && removed.credentials == s.credentials && removed.workflows == s.workflows && call.DeleteWorkflow?
    requires forall c :: c in s.credentials && Remains(call, true, c) ==> s.credentials[c].uri in removed.vault
    requires forall w, slot :: w in s.workflows && Remains(call, false, w) && s.workflows[w].UriAt(slot).Some? ==>
      s.workflows[w].UriAt(slot).value in removed.vault
    ensures StoresInv(Do(removed, DropWorkflow(call.id)))
  {
    assert forall c :: Remains(call, true, c);
  }

  /** The rows a completed deletion leaves. */
  predicate Remains(call: Call, credential: bool, id: Id)
    requires call.DeleteCredential? || call.DeleteWorkflow?
  {
    credential == call.DeleteCredential? ==> id != call.id
  }

  lemma RemainingCredentials(s: Stores, call: Call, removed: Stores)
    requires StoresInv(s) && (call.DeleteCredential? || call.DeleteWorkflow?) && Plan(s, call) != []
    requires forall uri :: uri in removed.vault <==> uri in s.vault && Remove(uri) !in Removals(s, call)
    ensures forall c :: c in s.credentials && Remains(call, true, c) ==> s.credentials[c].uri in removed.vault
  {
    forall c | c in s.credentials && Remains(call, true, c) ensures s.credentials[c].uri in removed.vault {
      CredentialUntouched(s, call, c);
    }
  }

  lemma RemainingKeys(s: Stores, call: Call, removed: Stores)
    requires StoresInv(s) && (call.DeleteCredential? || call.DeleteWorkflow?) && Plan(s, call) != []
    requires forall uri :: uri in removed.vault <==> uri in s.vault && Remove(uri) !in Removals(s, call)
    ensures forall w, slot :: w in s.workflows && Remains(call, false, w) && s.workflows[w].UriAt(slot).Some? ==>
      s.workflows[w].UriAt(slot).value in removed.vault
  {
    forall w, slot | w in s.workflows && Remains(call, false, w) && s.workflows[w].UriAt(slot).Some?
      ensures s.workflows[w].UriAt(slot).value in removed.vault
    {
      KeyUntouched(s, call, w, slot);
    }
  }

  lemma CredentialUntouched(s: Stores, call: Call, c: Id)
    requires StoresInv(s) && (call.DeleteCredential? || call.DeleteWorkflow?) && Plan(s, call) != []
    requires c in s.credentials && (call.DeleteCredential? ==> c != call.id)
    ensures Remove(s.credentials[c].uri) !in Removals(s, call)
  {
    DeletionShape(s, call);
    var uri := s.credentials[c].uri;
    if Remove(uri) in Removals(s, call) {
      if call.DeleteCredential? {
        CredentialUrisDiffer(s.credentials[c].tenant, c, call.tenant, call.id);
      } else {
        var slot: Slot :| s.workflows[call.id].UriAt(slot) == Some(uri);
        UrisDiffer(call.tenant, call.id, slot, s.credentials[c].tenant, call.id, slot, c);
      }
    }
  }

  lemma CredentialUrisDiffer(t: Id, c: Id, t': Id, c': Id)
    requires PlainId(t) && PlainId(c) && PlainId(t') && PlainId(c')
    ensures CredentialUri(t, c) == CredentialUri(t', c') ==> c == c'
  {
    assert CredentialUri(t, c)[|SCHEME|..] == Join('/', [t, c]) && CredentialUri(t', c')[|SCHEME|..] == Join('/', [t', c']);
    JoinInjective('/', [t, c], [t', c']);
    assert [t, c][1] == c && [t', c'][1] == c';
  }

  lemma KeyUntouched(s: Stores, call: Call, w: Id, slot: Slot)
    requires StoresInv(s) && (call.DeleteCredential? || call.DeleteWorkflow?) && Plan(s, call) != []
    requires w in s.workflows && s.workflows[w].UriAt(slot).Some? && (call.DeleteWorkflow? ==> w != call.id)
    ensures Remove(s.workflows[w].UriAt(slot).value) !in Removals(s, call)
  {
    DeletionShape(s, call);
    var uri, tenant := s.workflows[w].UriAt(slot).value, s.workflows[w].tenant;
    if Remove(uri) in Removals(s, call) {
      if call.DeleteCredential? {
        UrisDiffer(tenant, w, slot, call.tenant, w, slot, call.id);
      } else {
        var slot': Slot :| s.workflows[call.id].UriAt(slot') == Some(uri);
        UrisDiffer(tenant, w, slot, call.tenant, call.id, slot', w);
      }
    }
  }

  // ---------- Runs with a failure possible after any write of any call ----------

  lemma CallKeeps(s: Stores, call: Call, steps: nat)
    requires StoresInv(s) && Allowed(s, call, steps)
    ensures StoresInv(After(s, call, steps))
  {
    match call
    case CreateCredential(_, _, _, _) => CreateCredentialKeeps(s, call, steps);
    case UpdateCredential(_, _, _, _, _) => UpdateCredentialKeeps(s, call, steps);
    case RotateKey(_, _, _, _) => RotateKeeps(s, call, steps);
    case DeleteCredential(_, _, _) => DeletionDanglesIff(s, call, steps);
    case DeleteWorkflow(_, _, _) => DeletionDanglesIff(s, call, steps);
    case CreateWorkflow(id, tenant, allowKeys, withVault, primary, secondary) =>
      var plan := Plan(s, call);
      NewWorkflowKeeps(s, id, tenant, allowKeys, withVault, primary, secondary, if steps <= |plan| then steps else |plan|);
      assert plan[..|plan|] == plan;
    case DuplicateWorkflow(id, tenant, source, withVault, primary, secondary) =>
      var plan := Plan(s, call);
      if plan != [] {
        NewWorkflowKeeps(s, id, tenant, s.workflows[source].allowKeys, withVault, primary, secondary, if steps <= |plan| then steps else |plan|);
        assert plan[..|plan|] == plan;
      }
  }

  function Run(s: Stores, calls: seq<(Call, nat)>): Stores
    decreases |calls|
  {
    if calls == [] then s else Run(After(s, calls[0].0, calls[0].1), calls[1..])
  }

  ghost predicate AllAllowed(s: Stores, calls: seq<(Call, nat)>)
    decreases |calls|
  {
    calls == [] || (Allowed(s, calls[0].0, calls[0].1) && AllAllowed(After(s, calls[0].0, calls[0].1), calls[1..]))
  }

  /** No run of calls, each stopped after any number of its writes, leaves a committed row naming a missing secret, as
      long as deletions that removed a secret commit. */
  lemma {:induction false} NeverDangling(s: Stores, calls: seq<(Call, nat)>)
    requires StoresInv(s) && AllAllowed(s, calls)
    ensures StoresInv(Run(s, calls))
    decreases |calls|
  {
    if calls != [] {
      CallKeeps(s, calls[0].0, calls[0].1);
      NeverDangling(After(s, calls[0].0, calls[0].1), calls[1..]);
    }
  }

  // ---------- Reading keys ----------

  datatype KeyRead = WorkflowNotFound | KeysNotAllowed | KeyNotFound | Key(key: string)

  function ReadSlot(s: Stores, tenant: Id, id: Id, slot: Slot): KeyRead {
    if !WorkflowIn(s, tenant, id) then WorkflowNotFound
    else if !s.workflows[id].allowKeys then KeysNotAllowed
    else
      var uri := s.workflows[id].UriAt(slot);
      if uri.None? || uri.value !in s.vault || s.vault[uri.value] == "" then KeyNotFound else Key(s.vault[uri.value])
  }

  /** Key 1 is the primary key, key 2 the secondary; there is no other. */
  function GetApiKey(s: Stores, tenant: Id, id: Id, number: int): KeyRead {
    if number == 1 then ReadSlot(s, tenant, id, Primary)
    else if number == 2 then ReadSlot(s, tenant, id, Secondary)
    else KeyNotFound
  }

  /** A key reads if its workflow is in the tenant and may use keys, the slot of its number names a secret, and that is in the vault and
      not empty. */
  lemma KeyReadsIff(s: Stores, tenant: Id, id: Id, number: int, key: string)
    ensures GetApiKey(s, tenant, id, number) == Key(key) <==>
      && id in s.workflows && s.workflows[id].tenant == tenant && s.workflows[id].allowKeys && key != ""
      && ((number == 1 && s.workflows[id].primary.Some? && s.workflows[id].primary.value in s.vault
           && s.vault[s.workflows[id].primary.value] == key)
          || (number == 2 && s.workflows[id].secondary.Some? && s.workflows[id].secondary.value in s.vault
              && s.vault[s.workflows[id].secondary.value] == key))
    ensures GetApiKey(s, tenant, id, number) == KeyNotFound && number in {1, 2} ==>
      id in s.workflows && s.workflows[id].tenant == tenant && s.workflows[id].allowKeys
  {
  }

  /** The calls that make a workflow: from nothing, or from an existing one whose permission to use keys they copy. */
  predicate MakesWorkflow(s: Stores, call: Call) {
    call.CreateWorkflow? || (call.DuplicateWorkflow? && WorkflowIn(s, call.tenant, call.source))
  }

  predicate KeysAllowed(s: Stores, call: Call)
    requires MakesWorkflow(s, call)
  {
    if call.CreateWorkflow? then call.allowKeys else s.workflows[call.source].allowKeys
  }

  /** A new workflow's two keys read back under their numbers, and making it, however far it gets, changes no key any other
      workflow reads, the copied one's included. */
  lemma CreatedKeysReadBack(s: Stores, call: Call, steps: nat, tenant: Id, id: Id, slot: Slot)
    requires StoresInv(s) && MakesWorkflow(s, call) && Allowed(s, call, steps) && PlainId(tenant) && PlainId(id)
    ensures steps >= 3 && call.withVault && KeysAllowed(s, call) && call.primary != "" && call.secondary != "" ==>
      && GetApiKey(After(s, call, steps), call.tenant, call.id, 1) == Key(call.primary)
      && GetApiKey(After(s, call, steps), call.tenant, call.id, 2) == Key(call.secondary)
    ensures id != call.id ==> ReadSlot(After(s, call, steps), tenant, id, slot) == ReadSlot(s, tenant, id, slot)
  {
    var allowKeys := KeysAllowed(s, call);
    var plan := NewWorkflowWrites(call.id, call.tenant, allowKeys, call.withVault, call.primary, call.secondary);
    assert plan[..|plan|] == plan;
    var done := if steps <= |plan| then steps else |plan|;
    NewKeysReadBack(s, call.id, call.tenant, allowKeys, call.primary, call.secondary);
    if id != call.id {
      OthersKeepKeys(s, call.id, call.tenant, allowKeys, call.withVault, call.primary, call.secondary, done, tenant, id, slot);
    }
  }

  lemma NewKeysReadBack(s: Stores, id: Id, tenant: Id, allowKeys: bool, primary: string, secondary: string)
    requires PlainId(tenant) && PlainId(id)
    ensures var made := DoAll(s, NewWorkflowWrites(id, tenant, allowKeys, true, primary, secondary));
      allowKeys && primary != "" && secondary != "" ==>
        GetApiKey(made, tenant, id, 1) == Key(primary) && GetApiKey(made, tenant, id, 2) == Key(secondary)
  {
    var plan := NewWorkflowWrites(id, tenant, allowKeys, true, primary, secondary);
    DoNext(s, plan, 0);
    DoNext(s, plan, 1);
    DoNext(s, plan, 2);
    UrisDiffer(tenant, id, Primary, tenant, id, Secondary, id);
  }

  lemma OthersKeepKeys(s: Stores, made: Id, owner: Id, allowKeys: bool, withVault: bool, primary: string, secondary: string,
                       steps: nat, tenant: Id, id: Id, slot: Slot)
    requires StoresInv(s) && PlainId(made) && PlainId(owner) && PlainId(tenant) && PlainId(id) && id != made
    requires steps <= |NewWorkflowWrites(made, owner, allowKeys, withVault, primary, secondary)|
    ensures var writes := NewWorkflowWrites(made, owner, allowKeys, withVault, primary, secondary);
      ReadSlot(DoAll(s, writes[..steps]), tenant, id, slot) == ReadSlot(s, tenant, id, slot)
  {
    var plan := NewWorkflowWrites(made, owner, allowKeys, withVault, primary, secondary);
    DoNext(s, plan, 0);
    if withVault {
      DoNext(s, plan, 1);
      DoNext(s, plan, 2);
    }
    if WorkflowIn(s, tenant, id) && s.workflows[id].UriAt(slot).Some? {
      UrisDiffer(tenant, id, slot, owner, made, Primary, id);
      UrisDiffer(tenant, id, slot, owner, made, Secondary, id);
    }
  }

  datatype SecretRead = CredentialNotFound | Secret(value: Option<string>)

  function GetCredentialSecret(s: Stores, tenant: Id, id: Id): SecretRead {
    if !CredentialIn(s, tenant, id) then CredentialNotFound
    else
      var uri := s.credentials[id].uri;
      Secret(if uri in s.vault then Some(s.vault[uri]) else None)
  }

  /** A credential's secret reads back once it is created. */
  lemma CreatedSecretReadsBack(s: Stores, call: Call, steps: nat)
    requires call.CreateCredential? && steps >= 2
    ensures GetCredentialSecret(After(s, call, steps), call.tenant, call.id) == Secret(Some(call.secret))
  {
    DoTwo(s, Plan(s, call));
  }

  /** An update that completes makes it read the new secret only if the vault accepted it; refused, the call completes
      just the same and the old secret stays. */
  lemma UpdatedSecretReads(s: Stores, call: Call, steps: nat)
    requires StoresInv(s) && call.UpdateCredential? && steps >= |Plan(s, call)|
    ensures GetCredentialSecret(After(s, call, steps), call.tenant, call.id) ==
      if CredentialIn(s, call.tenant, call.id) && call.newSecret.Some? && call.accepted then Secret(call.newSecret)
      else GetCredentialSecret(s, call.tenant, call.id)
  {
    var plan := Plan(s, call);
    assert plan[..|plan|] == plan;
    if |plan| == 2 {
      DoTwo(s, plan);
    } else if |plan| == 1 {
      DoNext(s, plan, 0);
    }
  }

  /** Rotating one slot, however far it gets, changes no other slot of any workflow; completed, it makes the slot read
      the new key; stopped before its commit, an existing slot already reads the new key and a missing one nothing. */
  lemma RotationIsLocal(s: Stores, call: Call, steps: nat, tenant: Id, id: Id, slot: Slot)
    requires StoresInv(s) && call.RotateKey? && call.key != "" && PlainId(tenant) && PlainId(id)
    ensures (tenant, id, slot) != (call.tenant, call.id, call.slot) ==>
      ReadSlot(After(s, call, steps), tenant, id, slot) == ReadSlot(s, tenant, id, slot)
    ensures Plan(s, call) != [] && steps >= 2 ==> ReadSlot(After(s, call, steps), call.tenant, call.id, call.slot) == Key(call.key)
    ensures Plan(s, call) != [] && steps == 1 ==>
      ReadSlot(After(s, call, steps), call.tenant, call.id, call.slot) ==
        (if s.workflows[call.id].UriAt(call.slot).Some? then Key(call.key) else KeyNotFound)
  {
    var plan := Plan(s, call);
    if plan == [] {
      assert plan[..0] == [];
    } else {
      DoTwo(s, plan);
      assert plan[0].uri == KeyUri(call.tenant, call.id, call.slot);
      if (tenant, id, slot) != (call.tenant, call.id, call.slot) {
        OtherSlotUnread(s, call, tenant, id, slot);
      }
    }
  }

  /** Neither write of a rotation changes what another slot reads. */
  lemma OtherSlotUnread(s: Stores, call: Call, tenant: Id, id: Id, slot: Slot)
    requires StoresInv(s) && call.RotateKey? && PlainId(tenant) && PlainId(id) && Plan(s, call) != []
    requires (tenant, id, slot) != (call.tenant, call.id, call.slot)
    ensures ReadSlot(Do(s, Plan(s, call)[0]), tenant, id, slot) == ReadSlot(s, tenant, id, slot)
    ensures ReadSlot(Do(Do(s, Plan(s, call)[0]), Plan(s, call)[1]), tenant, id, slot) == ReadSlot(s, tenant, id, slot)
  {
    if WorkflowIn(s, tenant, id) && s.workflows[id].UriAt(slot).Some? {
      UrisDiffer(tenant, id, slot, call.tenant, call.id, call.slot, id);
    }
  }

  // ---------- What calls leave in the rows ----------

  /** A making that gets through leaves the row asked for: the caller's tenant, the caller's or the source's permission to use keys,
      and both key URIs or, without a vault, none. One that does not get through leaves none. */
  lemma MadeWorkflowRow(s: Stores, call: Call, steps: nat)
    requires StoresInv(s) && MakesWorkflow(s, call) && Allowed(s, call, steps)
    ensures var after := After(s, call, steps);
      && after.credentials == s.credentials
      && after.workflows ==
          if steps < (if call.withVault then 3 else 1) then s.workflows
          else if call.withVault then
            s.workflows[call.id := Workflow(call.tenant, Some(KeyUri(call.tenant, call.id, Primary)),
                                            Some(KeyUri(call.tenant, call.id, Secondary)), KeysAllowed(s, call))]
          else s.workflows[call.id := Workflow(call.tenant, None, None, KeysAllowed(s, call))]
  {
    var plan := NewWorkflowWrites(call.id, call.tenant, KeysAllowed(s, call), call.withVault, call.primary, call.secondary);
    assert plan[..|plan|] == plan;
    NewRow(s, call.id, call.tenant, KeysAllowed(s, call), call.withVault, call.primary, call.secondary,
           if steps <= |plan| then steps else |plan|);
  }

  lemma NewRow(s: Stores, id: Id, tenant: Id, allowKeys: bool, withVault: bool, primary: string, secondary: string, steps: nat)
    requires steps <= |NewWorkflowWrites(id, tenant, allowKeys, withVault, primary, secondary)|
    ensures var after := DoAll(s, NewWorkflowWrites(id, tenant, allowKeys, withVault, primary, secondary)[..steps]);
      && after.credentials == s.credentials
      && after.workflows ==
          if steps < (if withVault then 3 else 1) then s.workflows
          else if withVault then
            s.workflows[id := Workflow(tenant, Some(KeyUri(tenant, id, Primary)), Some(KeyUri(tenant, id, Secondary)), allowKeys)]
          else s.workflows[id := Workflow(tenant, None, None, allowKeys)]
  {
    var plan := NewWorkflowWrites(id, tenant, allowKeys, withVault, primary, secondary);
    DoNext(s, plan, 0);
    if withVault {
      DoNext(s, plan, 1);
      DoNext(s, plan, 2);
    }
  }

  /** A workflow made where keys are forbidden refuses both of them and any rotation. */
  lemma ForbiddenKeysStayForbidden(s: Stores, call: Call, steps: nat, slot: Slot, key: string, further: nat)
    requires StoresInv(s) && MakesWorkflow(s, call) && Allowed(s, call, steps) && !KeysAllowed(s, call)
    requires steps >= if call.withVault then 3 else 1
    ensures var made := After(s, call, steps);
      && GetApiKey(made, call.tenant, call.id, 1) == KeysNotAllowed && GetApiKey(made, call.tenant, call.id, 2) == KeysNotAllowed
      && Plan(made, RotateKey(call.id, call.tenant, slot, key)) == []
      && After(made, RotateKey(call.id, call.tenant, slot, key), further) == made
  {
    MadeWorkflowRow(s, call, steps);
    NothingDone(After(s, call, steps), RotateKey(call.id, call.tenant, slot, key), further);
  }

  /** One made where they are allowed but without a vault has none yet; a first rotation provides one. */
  lemma KeysWithoutVault(s: Stores, call: Call, steps: nat, slot: Slot, key: string)
    requires StoresInv(s) && MakesWorkflow(s, call) && Allowed(s, call, steps) && KeysAllowed(s, call)
    requires !call.withVault && steps >= 1 && key != ""
    ensures var made := After(s, call, steps);
      && GetApiKey(made, call.tenant, call.id, 1) == KeyNotFound && GetApiKey(made, call.tenant, call.id, 2) == KeyNotFound
      && ReadSlot(After(made, RotateKey(call.id, call.tenant, slot, key), 2), call.tenant, call.id, slot) == Key(key)
  {
    MadeWorkflowRow(s, call, steps);
    CallKeeps(s, call, steps);
    RotationIsLocal(After(s, call, steps), RotateKey(call.id, call.tenant, slot, key), 2, call.tenant, call.id, slot);
  }

  lemma NothingDone(s: Stores, call: Call, steps: nat)
    requires Plan(s, call) == []
    ensures After(s, call, steps) == s
  {
    assert Plan(s, call)[..0] == [];
  }

  /** A call on a row of another tenant, or on none, writes nothing, and its keys and secret are not found. */
  lemma OtherTenantsUntouched(s: Stores, call: Call, steps: nat, number: int)
    requires call.UpdateCredential? || call.DeleteCredential? ==> call.id in s.credentials ==> s.credentials[call.id].tenant != call.tenant
    requires call.RotateKey? || call.DeleteWorkflow? ==> call.id in s.workflows ==> s.workflows[call.id].tenant != call.tenant
    requires call.DuplicateWorkflow? ==> call.source in s.workflows ==> s.workflows[call.source].tenant != call.tenant
    requires !call.CreateCredential? && !call.CreateWorkflow?
    ensures After(s, call, steps) == s
    ensures call.RotateKey? && number in {1, 2} ==> GetApiKey(s, call.tenant, call.id, number) == WorkflowNotFound
    ensures call.UpdateCredential? ==> GetCredentialSecret(s, call.tenant, call.id) == CredentialNotFound
  {
    NothingDone(s, call, steps);
  }

  /** A completed creation or update leaves the name it was given, under the tenant and URI of the credential. */
  lemma CredentialRowWritten(s: Stores, call: Call, steps: nat)
    requires StoresInv(s) && (call.CreateCredential? || call.UpdateCredential?) && steps >= |Plan(s, call)|
    requires call.UpdateCredential? ==> call.id in s.credentials && s.credentials[call.id].tenant == call.tenant
    ensures var after := After(s, call, steps);
      && after.workflows == s.workflows
      && after.credentials == s.credentials[call.id := Credential(call.tenant, CredentialUri(call.tenant, call.id), call.name)]
  {
    var plan := Plan(s, call);
    assert plan[..|plan|] == plan;
    if |plan| == 2 {
      DoTwo(s, plan);
    } else {
      DoNext(s, plan, 0);
    }
  }

  /** The secrets a deletion gets out of the vault. */
  predicate TakesOut(s: Stores, call: Call, uri: Uri) {
    || (call.DeleteCredential? && call.removed && call.id in s.credentials && s.credentials[call.id].uri == uri)
    || (call.DeleteWorkflow? && call.id in s.workflows
        && ((Primary in call.removedKeys && s.workflows[call.id].primary == Some(uri))
            || (Secondary in call.removedKeys && s.workflows[call.id].secondary == Some(uri))))
  }

  /** A completed deletion leaves no row, takes the secrets it could remove out of the vault, and touches nothing else. */
  lemma DeletionRemoves(s: Stores, call: Call, steps: nat, uri: Uri)
    requires (call.DeleteCredential? || call.DeleteWorkflow?) && steps >= |Plan(s, call)|
    requires call.DeleteCredential? ==> call.id in s.credentials && s.credentials[call.id].tenant == call.tenant
    requires call.DeleteWorkflow? ==> call.id in s.workflows && s.workflows[call.id].tenant == call.tenant
    ensures var after := After(s, call, steps);
      && after.credentials == (if call.DeleteCredential? then s.credentials - {call.id} else s.credentials)
      && after.workflows == (if call.DeleteWorkflow? then s.workflows - {call.id} else s.workflows)
      && (uri in after.vault <==> uri in s.vault && !TakesOut(s, call, uri))
  {
    DeletionPlanned(s, call, uri);
    CompletedIsDrop(s, call, steps);
    RemovalsLeave(s, call, uri);
    RowDropped(DoAll(s, Removals(s, call)), call);
  }

  lemma RowDropped(s: Stores, call: Call)
    requires call.DeleteCredential? || call.DeleteWorkflow?
    ensures var after := Do(s, if call.DeleteCredential? then DropCredential(call.id) else DropWorkflow(call.id));
      && after.vault == s.vault
      && after.credentials == (if call.DeleteCredential? then s.credentials - {call.id} else s.credentials)
      && after.workflows == (if call.DeleteWorkflow? then s.workflows - {call.id} else s.workflows)
  {
  }

  lemma RemovalsLeave(s: Stores, call: Call, uri: Uri)
    requires (call.DeleteCredential? || call.DeleteWorkflow?) && Plan(s, call) != []
    ensures var left := DoAll(s, Removals(s, call));
      && left.credentials == s.credentials && left.workflows == s.workflows
      && (uri in left.vault <==> uri in s.vault && Remove(uri) !in Removals(s, call))
  {
    DeletionShape(s, call);
    RemovalsThenDrop(s, Removals(s, call));
  }

  lemma CompletedIsDrop(s: Stores, call: Call, steps: nat)
    requires (call.DeleteCredential? || call.DeleteWorkflow?) && Plan(s, call) != [] && steps >= |Plan(s, call)|
    ensures After(s, call, steps) ==
      Do(DoAll(s, Removals(s, call)), if call.DeleteCredential? then DropCredential(call.id) else DropWorkflow(call.id))
  {
    DeletionShape(s, call);
    var plan := Plan(s, call);
    assert plan[..|plan|] == plan && plan[..|plan| - 1] == Removals(s, call);
    DoNext(s, plan, |plan| - 1);
  }

  lemma DeletionPlanned(s: Stores, call: Call, uri: Uri)
    requires call.DeleteCredential? || call.DeleteWorkflow?
    requires call.DeleteCredential? ==> call.id in s.credentials && s.credentials[call.id].tenant == call.tenant
    requires call.DeleteWorkflow? ==> call.id in s.workflows && s.workflows[call.id].tenant == call.tenant
    ensures Plan(s, call) != [] && (Remove(uri) in Removals(s, call) <==> TakesOut(s, call, uri))
  {
    if call.DeleteWorkflow? {
      WorkflowRemovals(s.workflows[call.id], call.removedKeys, uri);
      var row := s.workflows[call.id];
      assert Removals(s, call) == RemoveWrites(row, Primary, call.removedKeys) + RemoveWrites(row, Secondary, call.removedKeys);
    } else {
      assert Removals(s, call) == if call.removed then [Remove(s.credentials[call.id].uri)] else [];
    }
  }

  lemma WorkflowRemovals(row: Workflow, removed: set<Slot>, uri: Uri)
    ensures Remove(uri) in RemoveWrites(row, Primary, removed) + RemoveWrites(row, Secondary, removed) <==>
      (Primary in removed && row.primary == Some(uri)) || (Secondary in removed && row.secondary == Some(uri))
  {
  }
}
