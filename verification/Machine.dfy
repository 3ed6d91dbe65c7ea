/** The services as one machine: executing commands on a store is a run. */
module Machine {
  import opened Entities
  import opened Database
  import opened Repositories
  import opened Transitions
  import opened Sealing
  import opened Runs
  import AccountService
  import ClusterService
  import OperatorService
  import ScopedSigningKeyService
  import UserService

  /** Every service call is a step. */
  method Execute(store: Store, cmd: Command) returns (ok: bool)
    requires store.Valid()
    modifies store
    ensures store.Valid() && store.faults >= old(store.faults)
    ensures Step(State(old(store.db), old(store.next)), Event(cmd, ok, store.faults - old(store.faults)),
                 State(store.db, store.next))
  {
    hide Schema, Supplied, CreateOperatorStep, UpdateOperatorStep, SetSystemAccountStep, DeleteOperatorStep,
         CreateAccountStep, UpdateAccountStep, UpdateJetStreamStep, DeleteAccountStep, CreateKeyStep, UpdateKeyStep,
         DeleteKeyStep, CreateUserStep, UpdateUserStep, DeleteUserStep, ClusterStep, OperatorTaken, AccountTaken,
         KeyTaken, UserTaken, ClusterTaken, Differs, PatchedKey, NewKey, SignedNewAccount, Sealed;
    match cmd {
      case CreateOperator(name, description, now) =>
        var r := OperatorService.CreateOperator(store, name, description, now);
        ok := r.Ok?;
      case UpdateOperator(id, req) =>
        var r := OperatorService.UpdateOperator(store, id, req);
        ok := r.Ok?;
      case SetSystemAccount(id, key) =>
        var r := OperatorService.SetSystemAccount(store, id, key);
        ok := r.Ok?;
      case DeleteOperator(id) =>
        var r := OperatorService.DeleteOperator(store, id);
        ok := r.Ok?;
      case CreateAccount(req, now) =>
        var r := AccountService.CreateAccount(store, req, now);
        ok := r.Ok?;
      case UpdateAccount(id, req) =>
        var r := AccountService.UpdateAccount(store, id, req);
        ok := r.Ok?;
      case UpdateJetStream(id, enabled, limits) =>
        var r := AccountService.UpdateJetStreamLimits(store, id, enabled, limits);
        ok := r.Ok?;
      case DeleteAccount(id) =>
        var r := AccountService.DeleteAccount(store, id);
        ok := r.Ok?;
      case CreateKey(req, now) =>
        var r := ScopedSigningKeyService.CreateScopedSigningKey(store, req, now);
        ok := r.Ok?;
      case UpdateKey(id, req) =>
        var r := ScopedSigningKeyService.UpdateScopedSigningKey(store, id, req);
        ok := r.Ok?;
      case DeleteKey(id) =>
        var r := ScopedSigningKeyService.DeleteScopedSigningKey(store, id);
        ok := r.Ok?;
      case CreateUser(req, now) =>
        var r := UserService.CreateUser(store, req, now);
        ok := r.Ok?;
      case UpdateUser(id, req) =>
        var r := UserService.UpdateUser(store, id, req);
        ok := r.Ok?;
      case DeleteUser(id) =>
        var r := UserService.DeleteUser(store, id);
        ok := r.Ok?;
      case OnCluster(call) => ok := ExecuteOnCluster(store, call);
    }
  }

  method ExecuteOnCluster(store: Store, call: ClusterCommand) returns (ok: bool)
    requires store.Valid()
    modifies store
    ensures store.Valid() && store.next >= old(store.next) && store.faults >= old(store.faults)
    ensures ClusterStep(State(old(store.db), old(store.next)), call, ok, store.faults - old(store.faults), store.db)
  {
    hide Schema, Supplied, CreateClusterStep, ClusterCredentialsStep, UpdateClusterStep, DeleteClusterStep;
    match call {
      case CreateCluster(req, v, nonce, now) =>
        var r := ClusterService.CreateCluster(store, req, v, nonce, now);
        ok := r.Ok?;
      case UpdateClusterCredentials(id, userId, v, nonce) =>
        var r := ClusterService.UpdateClusterCredentials(store, id, userId, v, nonce);
        ok := r.Ok?;
      case UpdateCluster(id, req) =>
        var r := ClusterService.UpdateCluster(store, id, req);
        ok := r.Ok?;
      case DeleteCluster(id) =>
        var r := ClusterService.DeleteCluster(store, id);
        ok := r.Ok?;
    }
  }

  /** Whatever is asked of a new store, and whatever fails on the way, the trace is a run. */
  method ExecuteAll(commands: seq<Command>, plan: seq<bool>)
    returns (store: Store, ghost states: seq<State>, ghost events: seq<Event>)
    ensures fresh(store) && store.Valid()
    ensures IsRun(states, events) && |events| == |commands|
    ensures forall i | 0 <= i < |events| :: events[i].cmd == commands[i]
    ensures states[|events|] == State(store.db, store.next)
  {
    hide Step, Sound;
    store := new Store(plan);
    states, events := [State(store.db, store.next)], [];
    for i := 0 to |commands|
      invariant fresh(store) && store.Valid() && |events| == i
      invariant IsRun(states, events) && states[i] == State(store.db, store.next)
      invariant forall j | 0 <= j < i :: events[j].cmd == commands[j]
    {
      ghost var before := store.faults;
      var ok := Execute(store, commands[i]);
      ghost var e := Event(commands[i], ok, store.faults - before);
      ExtendRun(states, events, e, State(store.db, store.next));
      states, events := states + [State(store.db, store.next)], events + [e];
    }
  }
}
