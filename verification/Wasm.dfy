// Contract execution in the test chain: messages, submessages and replies over
// nested storage transactions, refined against a snapshot-and-restore semantics.
module Wasm {
  import opened Bytes
  import opened Transactions

  type Addr = string

  type Attribute = (string, string)

  datatype Event = Event(ty: string, attributes: seq<Attribute>)

  datatype Error =
    | ContractNotFound | UnregisteredCodeId | InvalidResponse | EmptyLabel | NotAdmin
    | Custom(text: string)

  datatype Result<+T> = Ok(value: T) | Err(error: Error)

  datatype AppResponse = AppResponse(events: seq<Event>, data: Option<bytes>)

  datatype ReplyOn = Always | OnError | OnSuccess | Never

  datatype Reply = Reply(id: nat, result: Result<AppResponse>)

  /** What running code can look at: the storage it writes, the storage its queries
      are answered from, and the reply it handles, if any. */
  datatype Env = Env(store: Kv, queried: Kv, reply: Option<Reply>)

  /** One finite run-tree of handler code. Tests and writes may depend on
      everything the handler can see. */
  datatype Code<R> =
    | Return(resp: R)
    | Fail(error: Error)
    | Write(op: Env -> Op, next: Code<R>)
    | Branch(test: Env -> bool, yes: Code<R>, no: Code<R>)

  datatype Response = Response(messages: seq<SubMsg>, attributes: seq<Attribute>, events: seq<Event>,
      data: Option<bytes>)

  datatype SubMsg = SubMsg(id: nat, msg: Msg, replyOn: ReplyOn, onReply: Code<Response>)

  /** A message with the code its handlers run. `Module` stands for the bank, staking,
      distribution and custom modules, which write straight to the storage they are given. */
  datatype Msg =
    | Module(handler: Code<AppResponse>)
    | Execute(contract: Addr, funds: Option<Code<AppResponse>>, body: Code<Response>)
    | Instantiate(admin: Option<Addr>, codeId: nat, title: string, funds: Option<Code<AppResponse>>,
        body: Code<Response>)
    | Migrate(contract: Addr, codeId: nat, body: Code<Response>)
    | UpdateAdmin(contract: Addr, admin: Option<Addr>)

  datatype ContractData = ContractData(codeId: nat, creator: Addr, admin: Option<Addr>, title: string, created: nat)

  /** The parts of the chain that execution depends on but does not define. */
  datatype Keeper = Keeper(
    codes: set<nat>,
    height: nat,
    loadContract: (Kv, Addr) -> Option<ContractData>,
    saveContract: (Addr, ContractData) -> Op,
    nextAddress: Kv -> Addr,
    trim: string -> string,
    digits: nat -> string,
    executeData: bytes -> bytes,
    instantiateData: (bytes, Addr) -> bytes)

  // ---------------------------------------------------------------------------
  // Sizes of run-trees
  // ---------------------------------------------------------------------------

  function MsgSize(m: Msg): nat {
    match m
    case Module(_) => 1
    case Execute(_, _, body) => 1 + CodeSize(body)
    case Instantiate(_, _, _, _, body) => 1 + CodeSize(body)
    case Migrate(_, _, body) => 1 + CodeSize(body)
    case UpdateAdmin(_, _) => 1
  }

  function CodeSize(c: Code<Response>): nat {
    match c
    case Return(resp) => 1 + SubsSize(resp.messages)
    case Fail(_) => 1
    case Write(_, next) => 1 + CodeSize(next)
    case Branch(_, yes, no) => 1 + CodeSize(yes) + CodeSize(no)
  }

  function SubSize(s: SubMsg): nat {
    1 + MsgSize(s.msg) + CodeSize(s.onReply)
  }

  function SubsSize(ss: seq<SubMsg>): nat {
    if ss == [] then 0 else SubSize(ss[0]) + SubsSize(ss[1..])
  }

  // ---------------------------------------------------------------------------
  // Reference semantics: every step maps a store to a result, a store, and the
  // log of the writes that survived. A failing part gets its snapshot back, and
  // an empty log, where the chain drops a transaction.
  // ---------------------------------------------------------------------------

  datatype Outcome<+T> = Outcome(result: Result<T>, store: Kv, log: seq<Op>)

  /** An outcome reached after some writes had already been made. */
  function After<T>(log: seq<Op>, out: Outcome<T>): Outcome<T> {
    out.(log := log + out.log)
  }

  /** What `transactional` leaves of an action: all of it, or the snapshot. */
  function Transacted<T>(out: Outcome<T>, snapshot: Kv): Outcome<T> {
    if out.result.Ok? then out else Outcome(out.result, snapshot, [])
  }

  function CodeRun<R>(code: Code<R>, st: Kv, queried: Kv, reply: Option<Reply>): Outcome<R> {
    match code
    case Return(resp) => Outcome(Ok(resp), st, [])
    case Fail(error) => Outcome(Err(error), st, [])
    case Write(op, next) =>
      var o := op(Env(st, queried, reply));
      After([o], CodeRun(next, o.On(st), queried, reply))
    case Branch(test, yes, no) =>
      if test(Env(st, queried, reply)) then CodeRun(yes, st, queried, reply) else CodeRun(no, st, queried, reply)
  }

  lemma {:induction false} CodeRunShrinks(code: Code<Response>, st: Kv, queried: Kv, reply: Option<Reply>)
    ensures var r := CodeRun(code, st, queried, reply).result; r.Ok? ==> SubsSize(r.value.messages) < CodeSize(code)
  {
    match code
    case Return(_) =>
    case Fail(_) =>
    case Write(op, next) => CodeRunShrinks(next, op(Env(st, queried, reply)).On(st), queried, reply);
    case Branch(_, yes, no) =>
      CodeRunShrinks(yes, st, queried, reply);
      CodeRunShrinks(no, st, queried, reply);
  }

  predicate AttributesAccepted(k: Keeper, attributes: seq<Attribute>) {
    forall i | 0 <= i < |attributes| ::
      var key, value := k.trim(attributes[i].0), k.trim(attributes[i].1);
      key != "" && value != "" && key[0] != '_'
  }

  /** `verify_response`. */
  predicate Accepted(k: Keeper, resp: Response) {
    && AttributesAccepted(k, resp.attributes)
    && forall i | 0 <= i < |resp.events| ::
         AttributesAccepted(k, resp.events[i].attributes) && |k.trim(resp.events[i].ty)| >= 2
  }

  const CONTRACT_ATTR := "_contract_addr"

  function WasmEvent(contract: Addr, e: Event): Event {
    Event("wasm-" + e.ty, [(CONTRACT_ATTR, contract)] + e.attributes)
  }

  /** `build_app_response`: the entry-point event, then the attributes as one
      event if there are any, then the contract's own events under a prefix. */
  function BuildAppResponse(contract: Addr, custom: Event, resp: Response): AppResponse {
    var attributes := if resp.attributes == [] then []
        else [Event("wasm", [(CONTRACT_ATTR, contract)] + resp.attributes)];
    AppResponse([custom] + attributes
        + seq(|resp.events|, i requires 0 <= i < |resp.events| => WasmEvent(contract, resp.events[i])),
                resp.data)
  }

  /** A contract's entry point: looked up, run on a snapshot, checked afterwards. */
  function CallRun(k: Keeper, contract: Addr, body: Code<Response>, reply: Option<Reply>, st: Kv): Outcome<Response> {
    match k.loadContract(st, contract)
    case None => Outcome(Err(ContractNotFound), st, [])
    case Some(data) =>
      if data.codeId !in k.codes then Outcome(Err(UnregisteredCodeId), st, [])
      else
        var ran := Transacted(CodeRun(body, st, st, reply), st);
        match ran.result
        case Err(e) => ran
        case Ok(resp) => if Accepted(k, resp) then ran else ran.(result := Err(InvalidResponse))
  }

  lemma CallRunShrinks(k: Keeper, contract: Addr, body: Code<Response>, reply: Option<Reply>, st: Kv)
    ensures var r := CallRun(k, contract, body, reply, st).result; r.Ok? ==> SubsSize(r.value.messages) < CodeSize(body)
  {
    CodeRunShrinks(body, st, st, reply);
  }

  /** An entry point together with everything its response sets off. */
  function EntryRun(k: Keeper, contract: Addr, custom: Event, body: Code<Response>, reply: Option<Reply>,
                    st: Kv): Outcome<AppResponse>
    decreases CodeSize(body), 0
  {
    CallRunShrinks(k, contract, body, reply, st);
    var called := CallRun(k, contract, body, reply, st);
    match called.result
    case Err(e) => Outcome(Err(e), called.store, called.log)
    case Ok(resp) =>
      After(called.log, ProcessRun(k, contract, BuildAppResponse(contract, custom, resp), resp.messages, called.store))
  }

  function Or<T>(a: Option<T>, b: Option<T>): Option<T> {
    if a.Some? then a else b
  }

  function ProcessRun(k: Keeper, contract: Addr, app: AppResponse, messages: seq<SubMsg>, st: Kv): Outcome<AppResponse>
    decreases SubsSize(messages), 1
  {
    if messages == [] then Outcome(Ok(app), st, [])
    else
      var sub := SubRun(k, contract, messages[0], st);
      match sub.result
      case Err(e) => sub
      case Ok(r) =>
        After(sub.log, ProcessRun(k, contract, AppResponse(app.events + r.events, Or(r.data, app.data)),
            messages[1..], sub.store))
  }

  function ReplyEvent(contract: Addr, reply: Reply): Event {
    Event("reply", [(CONTRACT_ATTR, contract),
        ("mode", if reply.result.Ok? then "handle_success" else "handle_failure")])
  }

  function ReplyRun(k: Keeper, contract: Addr, onReply: Code<Response>, reply: Reply, st: Kv): Outcome<AppResponse>
    decreases CodeSize(onReply), 1
  {
    EntryRun(k, contract, ReplyEvent(contract, reply), onReply, Some(reply), st)
  }

  function SubRun(k: Keeper, contract: Addr, sub: SubMsg, st: Kv): Outcome<AppResponse>
    decreases SubSize(sub), 0
  {
    var ran := Transacted(MsgRun(k, contract, sub.msg, st), st);
    match ran.result
    case Ok(r) =>
      if sub.replyOn.Always? || sub.replyOn.OnSuccess? then
        var replied := After(ran.log, ReplyRun(k, contract, sub.onReply, Reply(sub.id, Ok(r)), ran.store));
        match replied.result
        case Err(e) => replied
        case Ok(q) => replied.(result := Ok(AppResponse(r.events + q.events, q.data)))
      else
        ran.(result := Ok(r.(data := None)))
    case Err(e) =>
      if sub.replyOn.Always? || sub.replyOn.OnError? then
        ReplyRun(k, contract, sub.onReply, Reply(sub.id, Err(e)), ran.store)
      else
        ran
  }

  function FundsRun(funds: Option<Code<AppResponse>>, st: Kv): Outcome<AppResponse> {
    match funds
    case None => Outcome(Ok(AppResponse([], None)), st, [])
    case Some(send) => CodeRun(send, st, st, None)
  }

  function MapData(out: Outcome<AppResponse>, f: Option<bytes> -> Option<bytes>): Outcome<AppResponse> {
    match out.result
    case Err(_) => out
    case Ok(r) => out.(result := Ok(r.(data := f(r.data))))
  }

  function ExecuteData(k: Keeper): Option<bytes> -> Option<bytes> {
    (data: Option<bytes>) => match data case None => None case Some(d) => Some(k.executeData(d))
  }

  function InstantiateData(k: Keeper, contract: Addr): Option<bytes> -> Option<bytes> {
    (data: Option<bytes>) => Some(k.instantiateData(match data case None => [] case Some(d) => d, contract))
  }

  function ExecuteEvent(contract: Addr): Event {
    Event("execute", [(CONTRACT_ATTR, contract)])
  }

  function CodeIdEvent(k: Keeper, ty: string, contract: Addr, codeId: nat): Event {
    Event(ty, [(CONTRACT_ATTR, contract), ("code_id", k.digits(codeId))])
  }

  /** Funds first, then the contract. */
  function FundedRun(k: Keeper, contract: Addr, funds: Option<Code<AppResponse>>, custom: Event, body: Code<Response>,
                     wrap: Option<bytes> -> Option<bytes>, st: Kv): Outcome<AppResponse>
    decreases CodeSize(body), 1
  {
    var sent := FundsRun(funds, st);
    if sent.result.Err? then sent
    else MapData(After(sent.log, EntryRun(k, contract, custom, body, None, sent.store)), wrap)
  }

  function MsgRun(k: Keeper, sender: Addr, msg: Msg, st: Kv): Outcome<AppResponse>
    decreases MsgSize(msg), 0
  {
    match msg
    case Module(handler) => CodeRun(handler, st, st, None)
    case Execute(contract, funds, body) =>
      FundedRun(k, contract, funds, ExecuteEvent(contract), body, ExecuteData(k), st)
    case Instantiate(admin, codeId, title, funds, body) =>
      if title == "" then Outcome(Err(EmptyLabel), st, [])
      else if codeId !in k.codes then Outcome(Err(UnregisteredCodeId), st, [])
      else
        var contract := k.nextAddress(st);
        var op := k.saveContract(contract, ContractData(codeId, sender, admin, title, k.height));
        After([op], FundedRun(k, contract, funds, CodeIdEvent(k, "instantiate", contract, codeId), body,
                              InstantiateData(k, contract), op.On(st)))
    case Migrate(contract, codeId, body) =>
      if codeId !in k.codes then Outcome(Err(UnregisteredCodeId), st, [])
      else
        (match k.loadContract(st, contract)
         case None => Outcome(Err(ContractNotFound), st, [])
         case Some(data) =>
           if data.admin != Some(sender) then Outcome(Err(NotAdmin), st, [])
           else
             var op := k.saveContract(contract, data.(codeId := codeId));
             After([op], FundedRun(k, contract, None, CodeIdEvent(k, "migrate", contract, codeId), body,
                 ExecuteData(k), op.On(st))))
    case UpdateAdmin(contract, admin) =>
      (match k.loadContract(st, contract)
       case None => Outcome(Err(ContractNotFound), st, [])
       case Some(data) =>
         if data.admin != Some(sender) then Outcome(Err(NotAdmin), st, [])
         else
           var op := k.saveContract(contract, data.(admin := admin));
           Outcome(Ok(AppResponse([], None)), op.On(st), [op]))
  }

  /** A list of messages from one sender, each seeing its predecessors' writes. */
  function MultiRun(k: Keeper, sender: Addr, msgs: seq<Msg>, st: Kv): Outcome<seq<AppResponse>>
    decreases |msgs|
  {
    if msgs == [] then Outcome(Ok([]), st, [])
    else
      var ran := MsgRun(k, sender, msgs[0], st);
      match ran.result
      case Err(e) => Outcome(Err(e), ran.store, ran.log)
      case Ok(r) =>
        var rest := After(ran.log, MultiRun(k, sender, msgs[1..], ran.store));
        match rest.result
        case Err(e) => rest
        case Ok(rs) => rest.(result := Ok([r] + rs))
  }

  // ---------------------------------------------------------------------------
  // What the reference semantics promises
  // ---------------------------------------------------------------------------

  /** The store of an outcome is the replay of its log: what a run leaves behind are
      the surviving writes in program order, and nothing else. */
  ghost predicate Replayed<T>(st: Kv, out: Outcome<T>) {
    out.store == Replay(out.log, st)
  }

  lemma ReplayedAfter<T>(st: Kv, first: seq<Op>, out: Outcome<T>)
    requires Replayed(Replay(first, st), out)
    ensures Replayed(st, After(first, out))
  {
    ReplayConcat(first, out.log, st);
  }

  lemma ReplayOne(op: Op, st: Kv)
    ensures Replay([op], st) == op.On(st)
  {
    assert [op][..0] == [];
  }

  lemma {:induction false} CodeReplayed<R>(code: Code<R>, st: Kv, queried: Kv, reply: Option<Reply>)
    ensures Replayed(st, CodeRun(code, st, queried, reply))
  {
    match code
    case Return(_) =>
    case Fail(_) =>
    case Write(op, next) =>
      var o := op(Env(st, queried, reply));
      CodeReplayed(next, o.On(st), queried, reply);
      ReplayOne(o, st);
      ReplayedAfter(st, [o], CodeRun(next, o.On(st), queried, reply));
    case Branch(_, yes, no) =>
      CodeReplayed(yes, st, queried, reply);
      CodeReplayed(no, st, queried, reply);
  }

  lemma {:induction false} EntryReplayed(k: Keeper, contract: Addr, custom: Event, body: Code<Response>,
                                         reply: Option<Reply>, st: Kv)
    ensures Replayed(st, EntryRun(k, contract, custom, body, reply, st))
    decreases CodeSize(body), 0
  {
    CallRunShrinks(k, contract, body, reply, st);
    CodeReplayed(body, st, st, reply);
    var called := CallRun(k, contract, body, reply, st);
    if called.result.Ok? {
      var resp := called.result.value;
      var app := BuildAppResponse(contract, custom, resp);
      ProcessReplayed(k, contract, app, resp.messages, called.store);
      ReplayedAfter(st, called.log, ProcessRun(k, contract, app, resp.messages, called.store));
    }
  }

  lemma {:induction false} ProcessReplayed(k: Keeper, contract: Addr, app: AppResponse, messages: seq<SubMsg>, st: Kv)
    ensures Replayed(st, ProcessRun(k, contract, app, messages, st))
    decreases SubsSize(messages), 1
  {
    if messages != [] {
      SubReplayed(k, contract, messages[0], st);
      var sub := SubRun(k, contract, messages[0], st);
      if sub.result.Ok? {
        var app' := AppResponse(app.events + sub.result.value.events, Or(sub.result.value.data, app.data));
        ProcessReplayed(k, contract, app', messages[1..], sub.store);
        ReplayedAfter(st, sub.log, ProcessRun(k, contract, app', messages[1..], sub.store));
      }
    }
  }

  lemma {:induction false} SubReplayed(k: Keeper, contract: Addr, sub: SubMsg, st: Kv)
    ensures Replayed(st, SubRun(k, contract, sub, st))
    decreases SubSize(sub), 0
  {
    MsgReplayed(k, contract, sub.msg, st);
    var ran := MsgRun(k, contract, sub.msg, st);
    match ran.result
    case Ok(r) =>
      var reply := Reply(sub.id, Ok(r));
      EntryReplayed(k, contract, ReplyEvent(contract, reply), sub.onReply, Some(reply), ran.store);
      ReplayedAfter(st, ran.log, ReplyRun(k, contract, sub.onReply, reply, ran.store));
    case Err(e) =>
      var reply := Reply(sub.id, Err(e));
      EntryReplayed(k, contract, ReplyEvent(contract, reply), sub.onReply, Some(reply), st);
  }

  lemma {:induction false} FundedReplayed(k: Keeper, contract: Addr, funds: Option<Code<AppResponse>>, custom: Event,
                                          body: Code<Response>, wrap: Option<bytes> -> Option<bytes>, st: Kv)
    ensures Replayed(st, FundedRun(k, contract, funds, custom, body, wrap, st))
    decreases CodeSize(body), 1
  {
    if funds.Some? { CodeReplayed(funds.value, st, st, None); }
    var sent := FundsRun(funds, st);
    EntryReplayed(k, contract, custom, body, None, sent.store);
    ReplayedAfter(st, sent.log, EntryRun(k, contract, custom, body, None, sent.store));
  }

  /** However deeply messages, submessages and replies nest, the final store is the
      replay of the surviving writes on the initial one. */
  lemma {:induction false} MsgReplayed(k: Keeper, sender: Addr, msg: Msg, st: Kv)
    ensures Replayed(st, MsgRun(k, sender, msg, st))
    decreases MsgSize(msg), 0
  {
    match msg
    case Module(handler) => CodeReplayed(handler, st, st, None);
    case Execute(contract, funds, body) =>
      FundedReplayed(k, contract, funds, ExecuteEvent(contract), body, ExecuteData(k), st);
    case Instantiate(admin, codeId, title, funds, body) =>
      if title != "" && codeId in k.codes {
        var contract := k.nextAddress(st);
        var op := k.saveContract(contract, ContractData(codeId, sender, admin, title, k.height));
        var custom := CodeIdEvent(k, "instantiate", contract, codeId);
        ReplayOne(op, st);
        FundedReplayed(k, contract, funds, custom, body, InstantiateData(k, contract), op.On(st));
        ReplayedAfter(st, [op], FundedRun(k, contract, funds, custom, body, InstantiateData(k, contract), op.On(st)));
      }
    case Migrate(contract, codeId, body) =>
      var found := k.loadContract(st, contract);
      if codeId in k.codes && found.Some? && found.value.admin == Some(sender) {
        var op := k.saveContract(contract, found.value.(codeId := codeId));
        var custom := CodeIdEvent(k, "migrate", contract, codeId);
        ReplayOne(op, st);
        FundedReplayed(k, contract, None, custom, body, ExecuteData(k), op.On(st));
        ReplayedAfter(st, [op], FundedRun(k, contract, None, custom, body, ExecuteData(k), op.On(st)));
      }
    case UpdateAdmin(contract, admin) =>
      var found := k.loadContract(st, contract);
      if found.Some? {
        ReplayOne(k.saveContract(contract, found.value.(admin := admin)), st);
      }
  }

  lemma {:induction false} MultiReplayed(k: Keeper, sender: Addr, msgs: seq<Msg>, st: Kv)
    ensures Replayed(st, MultiRun(k, sender, msgs, st))
    decreases |msgs|
  {
    if msgs != [] {
      MsgReplayed(k, sender, msgs[0], st);
      var ran := MsgRun(k, sender, msgs[0], st);
      MultiReplayed(k, sender, msgs[1..], ran.store);
      ReplayedAfter(st, ran.log, MultiRun(k, sender, msgs[1..], ran.store));
    }
  }

  /** A caught failure is contained: of the failed message, however much it wrote
      or emitted, nothing but its error reaches the rest of the run. */
  lemma CaughtFailureLeavesOnlyTheReply(k: Keeper, contract: Addr, sub: SubMsg, st: Kv)
    requires MsgRun(k, contract, sub.msg, st).result.Err?
    ensures var e := MsgRun(k, contract, sub.msg, st).result.error;
            && SubRun(k, contract, sub, st) == SubRun(k, contract, sub.(msg := Module(Fail(e))), st)
            && (sub.replyOn.Never? || sub.replyOn.OnSuccess? ==>
                  SubRun(k, contract, sub, st) == Outcome(Err(e), st, []))
            && (sub.replyOn.Always? || sub.replyOn.OnError? ==>
                  SubRun(k, contract, sub, st) == ReplyRun(k, contract, sub.onReply, Reply(sub.id, Err(e)), st))
  {
  }

  /** Behind the entry-point event, every event of an accepted response names the contract
      that emitted it, first and only once: no contract can pass for another. */
  lemma EventsNameTheContract(k: Keeper, contract: Addr, custom: Event, resp: Response, i: nat)
    requires Accepted(k, resp) && k.trim(CONTRACT_ATTR) == CONTRACT_ATTR
    requires 0 < i < |BuildAppResponse(contract, custom, resp).events|
    ensures var app := BuildAppResponse(contract, custom, resp);
            var attributes := app.events[i].attributes;
            && app.events[0] == custom && app.data == resp.data
            && |app.events| == 1 + |resp.events| + (if resp.attributes == [] then 0 else 1)
            && attributes != [] && attributes[0] == (CONTRACT_ATTR, contract)
            && forall j | 0 <= j < |attributes| :: attributes[j].0 == CONTRACT_ATTR <==> j == 0
  {
    var event := BuildAppResponse(contract, custom, resp).events[i];
    var own := if resp.attributes != [] && i == 1 then resp.attributes
               else resp.events[if resp.attributes == [] then i - 1 else i - 2].attributes;
    assert event.attributes == [(CONTRACT_ATTR, contract)] + own && AttributesAccepted(k, own);
    forall j | 0 < j < |event.attributes| ensures event.attributes[j].0 != CONTRACT_ATTR {
      assert event.attributes[j] == own[j - 1];
    }
  }

  /** The submessages of a response, each run on what its predecessors left. */
  function SubResults(k: Keeper, contract: Addr, messages: seq<SubMsg>, st: Kv): Outcome<seq<AppResponse>>
    decreases |messages|
  {
    if messages == [] then Outcome(Ok([]), st, [])
    else
      var sub := SubRun(k, contract, messages[0], st);
      match sub.result
      case Err(e) => Outcome(Err(e), sub.store, sub.log)
      case Ok(r) =>
        var rest := After(sub.log, SubResults(k, contract, messages[1..], sub.store));
        match rest.result
        case Err(e) => rest
        case Ok(rs) => rest.(result := Ok([r] + rs))
  }

  /** An entry point that errs leaves its handler's writes in the storage if and only if the
      handler had succeeded, writing something, and only its response was refused. */
  lemma ErrorLeavesWritesIff(k: Keeper, contract: Addr, body: Code<Response>, reply: Option<Reply>, st: Kv)
    requires CallRun(k, contract, body, reply, st).result.Err?
    ensures var out, ran, data := CallRun(k, contract, body, reply, st), CodeRun(body, st, st, reply),
            k.loadContract(st, contract);
            && (out.log != [] <==> data.Some? && data.value.codeId in k.codes
                                   && ran.result.Ok? && ran.log != [] && !Accepted(k, ran.result.value))
            && (out.log != [] ==> out == Outcome(Err(InvalidResponse), ran.store, ran.log))
            && (out.log == [] ==> out.store == st)
  {
    if k.loadContract(st, contract).Some? && CodeRun(body, st, st, reply).log == [] {
      CodeReplayed(body, st, st, reply);
    }
  }

  /** Writing once and answering with an attribute without a name is enough. */
  lemma RejectedYetWritten(k: Keeper, contract: Addr, op: Op, st: Kv)
    requires k.loadContract(st, contract).Some? && k.loadContract(st, contract).value.codeId in k.codes
    requires k.trim("") == ""
    ensures var body := Write((_: Env) => op, Return(Response([], [("", "unnamed")], [], None)));
            CallRun(k, contract, body, None, st) == Outcome(Err(InvalidResponse), op.On(st), [op])
  {
    var resp := Response([], [("", "unnamed")], [], None);
    var body := Write((_: Env) => op, Return(resp));
    assert CodeRun(body.next, op.On(st), st, None) == Outcome(Ok(resp), op.On(st), []);
    assert [op] + [] == [op];
    assert resp.attributes[0] == ("", "unnamed");
    assert !Accepted(k, resp);
  }

  /** Anywhere in a list of submessages, one that fails can be replaced by one that does nothing
      but fail with the same error: the rest of the run cannot tell them apart. */
  lemma {:induction false} FailureIsContained(k: Keeper, contract: Addr, app: AppResponse, messages: seq<SubMsg>,
                                              i: nat, st: Kv)
    requires i < |messages| && SubResults(k, contract, messages[..i], st).result.Ok?
    requires MsgRun(k, contract, messages[i].msg, SubResults(k, contract, messages[..i], st).store).result.Err?
    ensures var e := MsgRun(k, contract, messages[i].msg,
            SubResults(k, contract, messages[..i], st).store).result.error;
            ProcessRun(k, contract, app, messages[i := messages[i].(msg := Module(Fail(e)))], st)
            == ProcessRun(k, contract, app, messages, st)
    decreases i
  {
    var e := MsgRun(k, contract, messages[i].msg, SubResults(k, contract, messages[..i], st).store).result.error;
    var others := messages[i := messages[i].(msg := Module(Fail(e)))];
    if i == 0 {
      assert messages[..0] == [];
      CaughtFailureLeavesOnlyTheReply(k, contract, messages[0], st);
      assert others[1..] == messages[1..];
    } else {
      var first := SubRun(k, contract, messages[0], st);
      assert messages[..i][1..] == messages[1..][..i - 1];
      var sub := first.result.value;
      FailureIsContained(k, contract, AppResponse(app.events + sub.events, Or(sub.data, app.data)), messages[1..],
          i - 1, first.store);
      assert others[1..] == messages[1..][i - 1 := messages[i].(msg := Module(Fail(e)))];
    }
  }

  function AllEvents(rs: seq<AppResponse>): seq<Event> {
    if rs == [] then [] else rs[0].events + AllEvents(rs[1..])
  }

  /** `d` is the data of the last response that has any, or `otherwise` if none has. */
  ghost predicate IsLastData(rs: seq<AppResponse>, otherwise: Option<bytes>, d: Option<bytes>) {
    || ((forall i | 0 <= i < |rs| :: rs[i].data == None) && d == otherwise)
    || (exists i :: 0 <= i < |rs| && rs[i].data.Some? && d == rs[i].data
                    && forall j | i < j < |rs| :: rs[j].data == None)
  }

  /** Processing a response: events accumulate in order, and the last submessage that
      returns data overrides the contract's own. */
  lemma {:induction false} ProcessCollects(k: Keeper, contract: Addr, app: AppResponse, messages: seq<SubMsg>, st: Kv)
    ensures var all, res := SubResults(k, contract, messages, st), ProcessRun(k, contract, app, messages, st);
            && res.store == all.store && res.log == all.log
            && (all.result.Err? ==> res.result == Err(all.result.error))
            && (all.result.Ok? ==>
                  && res.result.Ok? && |all.result.value| == |messages|
                  && res.result.value.events == app.events + AllEvents(all.result.value)
                  && IsLastData(all.result.value, app.data, res.result.value.data))
    decreases |messages|
  {
    if messages != [] {
      var first := SubRun(k, contract, messages[0], st);
      if first.result.Ok? {
        var sub := first.result.value;
        var app' := AppResponse(app.events + sub.events, Or(sub.data, app.data));
        ProcessCollects(k, contract, app', messages[1..], first.store);
        var rest := SubResults(k, contract, messages[1..], first.store).result;
        if rest.Ok? {
          var rs, all := rest.value, [sub] + rest.value;
          assert all[1..] == rs;
          LastDataCons(sub, rs, app.data, ProcessRun(k, contract, app', messages[1..], first.store).result.value.data);
          assert app.events + (sub.events + AllEvents(rs)) == (app.events + sub.events) + AllEvents(rs);
        }
      }
    } else {
      assert app.events + [] == app.events;
    }
  }

  lemma LastDataCons(r: AppResponse, rs: seq<AppResponse>, otherwise: Option<bytes>, d: Option<bytes>)
    requires IsLastData(rs, Or(r.data, otherwise), d)
    ensures IsLastData([r] + rs, otherwise, d)
  {
    var all := [r] + rs;
    assert forall i | 0 <= i < |rs| :: all[i + 1] == rs[i];
    if forall i | 0 <= i < |rs| :: rs[i].data == None {
      if r.data.Some? {
        assert all[0].data.Some?;
      }
    } else {
      var i :| 0 <= i < |rs| && rs[i].data.Some? && d == rs[i].data && forall j | i < j < |rs| :: rs[j].data == None;
      assert all[i + 1].data == d;
      forall j | i + 1 < j < |all| ensures all[j].data == None { assert all[j] == rs[j - 1]; }
    }
  }

  // ---------------------------------------------------------------------------
  // The keeper itself, over mutable and nested storage
  // ---------------------------------------------------------------------------

  ghost function LogOf(storage: Storage): seq<Op>
    reads storage.Handle()
  {
    if storage.Cached? then storage.tx.repLog else []
  }

  /** What a method did to a storage: the reference result, the reference store, and, on
      a transaction, the surviving writes appended to its replay log. */
  ghost predicate Ran<T>(res: Result<T>, storage: Storage, before: seq<Op>, out: Outcome<T>)
    requires storage.Valid()
    reads storage.Footprint(), storage.Handle()
  {
    && res == out.result && storage.View() == out.store
    && (storage.Cached? ==> LogOf(storage) == before + out.log)
  }

  lemma ThenAfter(before: seq<Op>, first: seq<Op>, second: seq<Op>)
    ensures before + first + second == before + (first + second)
    ensures before + [] == before
  {
  }

  method RunCode<R>(code: Code<R>, storage: Storage, queried: Kv, reply: Option<Reply>) returns (res: Result<R>)
    requires storage.Valid()
    modifies storage.Handle()
    ensures storage.Valid()
    ensures Ran(res, storage, old(LogOf(storage)), CodeRun(code, old(storage.View()), queried, reply))
  {
    var c := code;
    ghost var before, written := LogOf(storage), [];
    ThenAfter(before, [], []);
    while !c.Return? && !c.Fail?
      invariant storage.Valid() && (storage.Cached? ==> LogOf(storage) == before + written)
      invariant After(written, CodeRun(c, storage.View(), queried, reply))
                == CodeRun(code, old(storage.View()), queried, reply)
      decreases c
    {
      var env := Env(storage.View(), queried, reply);
      if c.Write? {
        var op := c.op(env);
        ghost var rest := CodeRun(c.next, op.On(storage.View()), queried, reply);
        storage.Apply(op);
        ThenAfter(before, written, [op]);
        ThenAfter(written, [op], rest.log);
        written := written + [op];
        c := c.next;
      } else {
        c := if c.test(env) then c.yes else c.no;
      }
    }
    ThenAfter(written, [], []);
    res := if c.Return? then Ok(c.resp) else Err(c.error);
  }

  /** `with_storage` and the response check of the `call_*` entry points. */
  method CallContract(k: Keeper, storage: Storage, contract: Addr, body: Code<Response>, reply: Option<Reply>)
    returns (res: Result<Response>)
    requires storage.Valid()
    modifies storage.Handle()
    ensures storage.Valid()
    ensures Ran(res, storage, old(LogOf(storage)), CallRun(k, contract, body, reply, old(storage.View())))
  {
    ThenAfter(LogOf(storage), [], []);
    var data := k.loadContract(storage.View(), contract);
    if data == None {
      return Err(ContractNotFound);
    }
    if data.value.codeId !in k.codes {
      return Err(UnregisteredCodeId);
    }
    res := RunTransacted(body, storage, reply);
    if res.Ok? && !Accepted(k, res.value) {
      res := Err(InvalidResponse);
    }
  }

  method RunTransacted(body: Code<Response>, storage: Storage, reply: Option<Reply>) returns (res: Result<Response>)
    requires storage.Valid()
    modifies storage.Handle()
    ensures storage.Valid()
    ensures var st := old(storage.View());
            Ran(res, storage, old(LogOf(storage)), Transacted(CodeRun(body, st, st, reply), st))
  {
    var cache := new StorageTransaction(storage);
    ghost var ran := CodeRun(body, storage.View(), storage.View(), reply);
    res := RunCode(body, Cached(cache), storage.View(), reply);
    SettleResult(storage, cache, res, ran);
  }

  /** Ends `transactional`: what ran on the cache takes effect on the storage below, or not at all. */
  method SettleResult<T>(storage: Storage, cache: StorageTransaction, res: Result<T>, ghost out: Outcome<T>)
    requires storage.Valid() && cache.storage == storage && Cached(cache).Valid()
    requires Ran(res, Cached(cache), [], out)
    modifies storage.Handle()
    ensures storage.Valid() && Ran(res, storage, old(LogOf(storage)), Transacted(out, old(storage.View())))
  {
    ThenAfter(LogOf(storage), [], []);
    Settle(storage, cache, res.Ok?);
  }

  method CallAndProcess(k: Keeper, storage: Storage, contract: Addr, custom: Event, body: Code<Response>,
                        reply: Option<Reply>)
    returns (res: Result<AppResponse>)
    requires storage.Valid()
    modifies storage.Handle()
    ensures storage.Valid()
    ensures Ran(res, storage, old(LogOf(storage)), EntryRun(k, contract, custom, body, reply, old(storage.View())))
    decreases CodeSize(body), 0
  {
    ghost var before, ran := LogOf(storage), CallRun(k, contract, body, reply, storage.View());
    CallRunShrinks(k, contract, body, reply, storage.View());
    var called := CallContract(k, storage, contract, body, reply);
    match called
    case Err(e) => res := Err(e);
    case Ok(resp) =>
      var app := BuildAppResponse(contract, custom, resp);
      ThenAfter(before, ran.log, ProcessRun(k, contract, app, resp.messages, storage.View()).log);
      res := ProcessResponse(k, storage, contract, app, resp.messages);
  }

  method ProcessResponse(k: Keeper, storage: Storage, contract: Addr, response: AppResponse, messages: seq<SubMsg>)
    returns (res: Result<AppResponse>)
    requires storage.Valid()
    modifies storage.Handle()
    ensures storage.Valid()
    ensures Ran(res, storage, old(LogOf(storage)), ProcessRun(k, contract, response, messages, old(storage.View())))
    decreases SubsSize(messages), 1
  {
    var app, todo := response, messages;
    ghost var before, written := LogOf(storage), [];
    ThenAfter(before, [], []);
    while todo != []
      invariant storage.Valid() && (storage.Cached? ==> LogOf(storage) == before + written)
      invariant SubsSize(todo) <= SubsSize(messages)
      invariant After(written, ProcessRun(k, contract, app, todo, storage.View()))
                == ProcessRun(k, contract, response, messages, old(storage.View()))
      decreases |todo|
    {
      ghost var ran := SubRun(k, contract, todo[0], storage.View());
      var sub := ExecuteSubMsg(k, storage, contract, todo[0]);
      ThenAfter(before, written, ran.log);
      if sub.Err? {
        return Err(sub.error);
      }
      app := AppResponse(app.events + sub.value.events, Or(sub.value.data, app.data));
      todo := todo[1..];
      ThenAfter(written, ran.log, ProcessRun(k, contract, app, todo, storage.View()).log);
      written := written + ran.log;
    }
    ThenAfter(written, [], []);
    res := Ok(app);
  }

  method ExecuteSubMsg(k: Keeper, storage: Storage, contract: Addr, sub: SubMsg) returns (res: Result<AppResponse>)
    requires storage.Valid()
    modifies storage.Handle()
    ensures storage.Valid() && Ran(res, storage, old(LogOf(storage)), SubRun(k, contract, sub, old(storage.View())))
    decreases SubSize(sub), 0
  {
    ghost var before := LogOf(storage);
    ghost var ran := Transacted(MsgRun(k, contract, sub.msg, storage.View()), storage.View());
    // the message alone is transactional; the reply writes to the storage itself
    res := ExecuteTransacted(k, storage, contract, sub.msg);
    // a caught error is forgotten, a success may be overruled
    match res
    case Ok(r) =>
      if sub.replyOn.Always? || sub.replyOn.OnSuccess? {
        var reply := Reply(sub.id, Ok(r));
        ThenAfter(before, ran.log, ReplyRun(k, contract, sub.onReply, reply, storage.View()).log);
        var replied := HandleReply(k, storage, contract, sub.onReply, reply);
        match replied
        case Err(e) => res := Err(e);
        case Ok(q) => res := Ok(AppResponse(r.events + q.events, q.data));
      } else {
        res := Ok(r.(data := None));
      }
    case Err(e) =>
      if sub.replyOn.Always? || sub.replyOn.OnError? {
        ThenAfter(before, [], ReplyRun(k, contract, sub.onReply, Reply(sub.id, Err(e)), storage.View()).log);
        res := HandleReply(k, storage, contract, sub.onReply, Reply(sub.id, Err(e)));
      }
  }

  method ExecuteTransacted(k: Keeper, storage: Storage, sender: Addr, msg: Msg) returns (res: Result<AppResponse>)
    requires storage.Valid()
    modifies storage.Handle()
    ensures storage.Valid()
    ensures var st := old(storage.View());
            Ran(res, storage, old(LogOf(storage)), Transacted(MsgRun(k, sender, msg, st), st))
    decreases MsgSize(msg), 1
  {
    var cache := new StorageTransaction(storage);
    ghost var below, out := storage.View(), MsgRun(k, sender, msg, storage.View());
    res := ExecuteMsg(k, Cached(cache), sender, msg);
    assert storage.View() == below;
    SettleResult(storage, cache, res, out);
  }

  method HandleReply(k: Keeper, storage: Storage, contract: Addr, onReply: Code<Response>, reply: Reply)
    returns (res: Result<AppResponse>)
    requires storage.Valid()
    modifies storage.Handle()
    ensures storage.Valid()
    ensures Ran(res, storage, old(LogOf(storage)), ReplyRun(k, contract, onReply, reply, old(storage.View())))
    decreases CodeSize(onReply), 1
  {
    res := CallAndProcess(k, storage, contract, ReplyEvent(contract, reply), onReply, Some(reply));
  }

  method SendFunds(storage: Storage, funds: Option<Code<AppResponse>>) returns (res: Result<AppResponse>)
    requires storage.Valid()
    modifies storage.Handle()
    ensures storage.Valid() && Ran(res, storage, old(LogOf(storage)), FundsRun(funds, old(storage.View())))
  {
    ThenAfter(LogOf(storage), [], []);
    match funds
    case None => res := Ok(AppResponse([], None));
    case Some(send) => res := RunCode(send, storage, storage.View(), None);
  }

  method EnterContract(k: Keeper, storage: Storage, contract: Addr, funds: Option<Code<AppResponse>>, custom: Event,
                       body: Code<Response>, wrap: Option<bytes> -> Option<bytes>) returns (res: Result<AppResponse>)
    requires storage.Valid()
    modifies storage.Handle()
    ensures storage.Valid()
    ensures Ran(res, storage, old(LogOf(storage)),
            FundedRun(k, contract, funds, custom, body, wrap, old(storage.View())))
    decreases CodeSize(body), 1
  {
    ghost var before, sent := LogOf(storage), FundsRun(funds, storage.View());
    res := SendFunds(storage, funds);
    if res.Ok? {
      ThenAfter(before, sent.log, EntryRun(k, contract, custom, body, None, storage.View()).log);
      res := CallAndProcess(k, storage, contract, custom, body, None);
      if res.Ok? {
        res := Ok(res.value.(data := wrap(res.value.data)));
      }
    }
  }

  /** The router and `execute_wasm`. A failure half-way leaves what was written so far. */
  method ExecuteMsg(k: Keeper, storage: Storage, sender: Addr, msg: Msg) returns (res: Result<AppResponse>)
    requires storage.Valid()
    modifies storage.Handle()
    ensures storage.Valid() && Ran(res, storage, old(LogOf(storage)), MsgRun(k, sender, msg, old(storage.View())))
    decreases MsgSize(msg), 0
  {
    match msg
    case Module(handler) =>
      res := RunCode(handler, storage, storage.View(), None);
    case Execute(contract, funds, body) =>
      res := EnterContract(k, storage, contract, funds, ExecuteEvent(contract), body, ExecuteData(k));
    case Instantiate(admin, codeId, title, funds, body) =>
      res := InstantiateContract(k, storage, sender, admin, codeId, title, funds, body);
    case Migrate(contract, codeId, body) =>
      res := MigrateContract(k, storage, sender, contract, codeId, body);
    case UpdateAdmin(contract, admin) =>
      res := ChangeAdmin(k, storage, sender, contract, admin);
  }

  method InstantiateContract(k: Keeper, storage: Storage, sender: Addr, admin: Option<Addr>, codeId: nat, title: string,
                             funds: Option<Code<AppResponse>>, body: Code<Response>) returns (res: Result<AppResponse>)
    requires storage.Valid()
    modifies storage.Handle()
    ensures storage.Valid()
    ensures Ran(res, storage, old(LogOf(storage)),
            MsgRun(k, sender, Instantiate(admin, codeId, title, funds, body), old(storage.View())))
    decreases CodeSize(body), 2
  {
    ghost var before := LogOf(storage);
    ThenAfter(before, [], []);
    if title == "" {
      return Err(EmptyLabel);
    }
    if codeId !in k.codes {
      return Err(UnregisteredCodeId);
    }
    // register the contract
    var contract := k.nextAddress(storage.View());
    var op := k.saveContract(contract, ContractData(codeId, sender, admin, title, k.height));
    storage.Apply(op);
    // registered before it is paid
    var custom := CodeIdEvent(k, "instantiate", contract, codeId);
    ThenAfter(before, [op], FundedRun(k, contract, funds, custom, body, InstantiateData(k, contract),
        storage.View()).log);
    res := EnterContract(k, storage, contract, funds, custom, body, InstantiateData(k, contract));
  }

  method MigrateContract(k: Keeper, storage: Storage, sender: Addr, contract: Addr, codeId: nat, body: Code<Response>)
    returns (res: Result<AppResponse>)
    requires storage.Valid()
    modifies storage.Handle()
    ensures storage.Valid()
    ensures Ran(res, storage, old(LogOf(storage)),
            MsgRun(k, sender, Migrate(contract, codeId, body), old(storage.View())))
    decreases CodeSize(body), 2
  {
    ghost var before := LogOf(storage);
    ThenAfter(before, [], []);
    if codeId !in k.codes {
      return Err(UnregisteredCodeId);
    }
    var data := k.loadContract(storage.View(), contract);
    if data == None {
      return Err(ContractNotFound);
    }
    if data.value.admin != Some(sender) {
      return Err(NotAdmin);
    }
    var op := k.saveContract(contract, data.value.(codeId := codeId));
    storage.Apply(op);
    // the new code runs, under the new code id
    var custom := CodeIdEvent(k, "migrate", contract, codeId);
    ThenAfter(before, [op], FundedRun(k, contract, None, custom, body, ExecuteData(k), storage.View()).log);
    res := EnterContract(k, storage, contract, None, custom, body, ExecuteData(k));
  }

  method ChangeAdmin(k: Keeper, storage: Storage, sender: Addr, contract: Addr,
                     admin: Option<Addr>) returns (res: Result<AppResponse>)
    requires storage.Valid()
    modifies storage.Handle()
    ensures storage.Valid()
    ensures Ran(res, storage, old(LogOf(storage)), MsgRun(k, sender, UpdateAdmin(contract, admin), old(storage.View())))
  {
    ThenAfter(LogOf(storage), [], []);
    var data := k.loadContract(storage.View(), contract);
    if data == None {
      return Err(ContractNotFound);
    }
    if data.value.admin != Some(sender) {
      return Err(NotAdmin);
    }
    storage.Apply(k.saveContract(contract, data.value.(admin := admin)));
    res := Ok(AppResponse([], None));
  }

  function Prefixed(done: seq<AppResponse>, rest: Result<seq<AppResponse>>): Result<seq<AppResponse>> {
    match rest case Ok(rs) => Ok(done + rs) case Err(e) => Err(e)
  }

  lemma PrefixedSteps(done: seq<AppResponse>, rest: Result<seq<AppResponse>>)
    ensures Prefixed([], rest) == rest && Prefixed(done, Ok([])) == Ok(done)
    ensures forall r, rs | rest == Ok([r] + rs) :: Prefixed(done, rest) == Prefixed(done + [r], Ok(rs))
  {
    assert done + [] == done;
    assert rest.Ok? ==> [] + rest.value == rest.value;
    forall r, rs | rest == Ok([r] + rs) ensures Prefixed(done, rest) == Prefixed(done + [r], Ok(rs)) {
      assert done + ([r] + rs) == done + [r] + rs;
    }
  }

  class App {
    const keeper: Keeper
    const store: MemoryStorage

    constructor (keeper: Keeper, genesis: Kv)
      ensures this.keeper == keeper && store.data == genesis && fresh(store)
    {
      this.keeper := keeper;
      store := new MemoryStorage(genesis);
    }

    /** All messages take effect, or none does. */
    method ExecuteMulti(sender: Addr, msgs: seq<Msg>) returns (res: Result<seq<AppResponse>>)
      modifies store
      ensures res == MultiRun(keeper, sender, msgs, old(store.data)).result
      ensures store.data == if res.Ok? then MultiRun(keeper, sender, msgs, old(store.data)).store else old(store.data)
    {
      var base := Memory(store);
      var cache := new StorageTransaction(base);
      var storage := Cached(cache);
      var responses, i, failed := [], 0, None;
      assert msgs[0..] == msgs;
      PrefixedSteps([], MultiRun(keeper, sender, msgs, base.View()).result);
      while i < |msgs| && failed == None
        invariant 0 <= i <= |msgs|
        invariant storage.Valid() && base.View() == old(store.data)
        invariant var all := MultiRun(keeper, sender, msgs, old(store.data));
                  match failed
                  case Some(e) => all.result == Err(e)
                  case None =>
                    var rest := MultiRun(keeper, sender, msgs[i..], storage.View());
                    all.store == rest.store && all.result == Prefixed(responses, rest.result)
        decreases |msgs| - i, failed == None
      {
        assert msgs[i..][1..] == msgs[i + 1..];
        PrefixedSteps(responses, MultiRun(keeper, sender, msgs[i..], storage.View()).result);
        var r := ExecuteMsg(keeper, storage, sender, msgs[i]);
        match r
        case Ok(response) =>
          responses, i := responses + [response], i + 1;
        case Err(e) =>
          failed := Some(e);
      }
      PrefixedSteps(responses, Ok([]));
      res := if failed == None then Ok(responses) else Err(failed.value);
      Settle(base, cache, res.Ok?);
    }
  }
}
