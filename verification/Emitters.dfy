// Who emitted an event: over a whole run, contract events name a contract that was entered.
module Emitters {
  import opened Bytes
  import opened Transactions
  import opened Wasm

  /** The events that contracts emit; the chain's own are "execute", "reply" and the like. */
  predicate IsWasm(e: Event) {
    e.ty == "wasm" || "wasm-" <= e.ty
  }

  /** The contract's address comes first, and no second one follows. */
  ghost predicate Names(e: Event, contracts: set<Addr>) {
    && e.attributes != [] && e.attributes[0].0 == CONTRACT_ATTR && e.attributes[0].1 in contracts
    && forall j | 0 < j < |e.attributes| :: e.attributes[j].0 != CONTRACT_ATTR
  }

  ghost predicate AllNamed(events: seq<Event>, contracts: set<Addr>) {
    forall i | 0 <= i < |events| :: IsWasm(events[i]) ==> Names(events[i], contracts)
  }

  // ---------------------------------------------------------------------------
  // Which contracts a run enters
  // ---------------------------------------------------------------------------

  /** The contracts whose entry points answered, in the parts of a run that were not dropped. */
  ghost function EntryEntered(k: Keeper, contract: Addr, body: Code<Response>, reply: Option<Reply>, st: Kv): set<Addr>
    decreases CodeSize(body), 0
  {
    CallRunShrinks(k, contract, body, reply, st);
    var called := CallRun(k, contract, body, reply, st);
    match called.result
    case Err(_) => {}
    case Ok(resp) => {contract} + ProcessEntered(k, contract, resp.messages, called.store)
  }

  ghost function ProcessEntered(k: Keeper, contract: Addr, messages: seq<SubMsg>, st: Kv): set<Addr>
    decreases SubsSize(messages), 1
  {
    if messages == [] then {}
    else
      var sub := SubRun(k, contract, messages[0], st);
      SubEntered(k, contract, messages[0], st)
      + if sub.result.Ok? then ProcessEntered(k, contract, messages[1..], sub.store) else {}
  }

  ghost function SubEntered(k: Keeper, contract: Addr, sub: SubMsg, st: Kv): set<Addr>
    decreases SubSize(sub), 0
  {
    var ran := Transacted(MsgRun(k, contract, sub.msg, st), st);
    match ran.result
    case Ok(r) =>
      MsgEntered(k, contract, sub.msg, st)
      + if sub.replyOn.Always? || sub.replyOn.OnSuccess?
        then EntryEntered(k, contract, sub.onReply, Some(Reply(sub.id, Ok(r))), ran.store) else {}
    case Err(e) =>
      if sub.replyOn.Always? || sub.replyOn.OnError?
      then EntryEntered(k, contract, sub.onReply, Some(Reply(sub.id, Err(e))), ran.store) else {}
  }

  ghost function FundedEntered(k: Keeper, contract: Addr, funds: Option<Code<AppResponse>>, body: Code<Response>,
                               st: Kv): set<Addr>
    decreases CodeSize(body), 1
  {
    var sent := FundsRun(funds, st);
    if sent.result.Err? then {} else EntryEntered(k, contract, body, None, sent.store)
  }

  ghost function MsgEntered(k: Keeper, sender: Addr, msg: Msg, st: Kv): set<Addr>
    decreases MsgSize(msg), 0
  {
    match msg
    case Module(_) => {}
    case Execute(contract, funds, body) => FundedEntered(k, contract, funds, body, st)
    case Instantiate(admin, codeId, title, funds, body) =>
      var contract := k.nextAddress(st);
      FundedEntered(k, contract, funds, body,
          k.saveContract(contract, ContractData(codeId, sender, admin, title, k.height)).On(st))
    case Migrate(contract, codeId, body) =>
      (match k.loadContract(st, contract)
       case None => {}
       case Some(data) => FundedEntered(k, contract, None, body,
           k.saveContract(contract, data.(codeId := codeId)).On(st)))
    case UpdateAdmin(_, _) => {}
  }

  // ---------------------------------------------------------------------------
  // Modules that keep to their own events
  // ---------------------------------------------------------------------------

  predicate QuietModule(code: Code<AppResponse>) {
    match code
    case Return(resp) => forall i | 0 <= i < |resp.events| :: !IsWasm(resp.events[i])
    case Fail(_) => true
    case Write(_, next) => QuietModule(next)
    case Branch(_, yes, no) => QuietModule(yes) && QuietModule(no)
  }

  predicate QuietFunds(funds: Option<Code<AppResponse>>) {
    funds.Some? ==> QuietModule(funds.value)
  }

  /** No module anywhere in the run-tree emits an event that looks like a contract's. */
  predicate QuietMsg(m: Msg) {
    match m
    case Module(handler) => QuietModule(handler)
    case Execute(_, funds, body) => QuietFunds(funds) && QuietCode(body)
    case Instantiate(_, _, _, funds, body) => QuietFunds(funds) && QuietCode(body)
    case Migrate(_, _, body) => QuietCode(body)
    case UpdateAdmin(_, _) => true
  }

  predicate QuietCode(code: Code<Response>) {
    match code
    case Return(resp) => QuietSubs(resp.messages)
    case Fail(_) => true
    case Write(_, next) => QuietCode(next)
    case Branch(_, yes, no) => QuietCode(yes) && QuietCode(no)
  }

  predicate QuietSub(sub: SubMsg) {
    QuietMsg(sub.msg) && QuietCode(sub.onReply)
  }

  predicate QuietSubs(subs: seq<SubMsg>) {
    subs == [] || (QuietSub(subs[0]) && QuietSubs(subs[1..]))
  }

  lemma {:induction false} QuietModuleRun(code: Code<AppResponse>, st: Kv, queried: Kv, contracts: set<Addr>)
    requires QuietModule(code)
    ensures var r := CodeRun(code, st, queried, None).result; r.Ok? ==> AllNamed(r.value.events, contracts)
  {
    match code
    case Return(_) =>
    case Fail(_) =>
    case Write(op, next) => QuietModuleRun(next, op(Env(st, queried, None)).On(st), queried, contracts);
    case Branch(_, yes, no) =>
      QuietModuleRun(yes, st, queried, contracts);
      QuietModuleRun(no, st, queried, contracts);
  }

  lemma {:induction false} QuietCodeRun(code: Code<Response>, st: Kv, queried: Kv, reply: Option<Reply>)
    requires QuietCode(code)
    ensures var r := CodeRun(code, st, queried, reply).result; r.Ok? ==> QuietSubs(r.value.messages)
  {
    match code
    case Return(_) =>
    case Fail(_) =>
    case Write(op, next) => QuietCodeRun(next, op(Env(st, queried, reply)).On(st), queried, reply);
    case Branch(_, yes, no) =>
      QuietCodeRun(yes, st, queried, reply);
      QuietCodeRun(no, st, queried, reply);
  }

  // ---------------------------------------------------------------------------
  // Every event of a run
  // ---------------------------------------------------------------------------

  lemma OwnEvent(e: Event)
    requires e.ty == "execute" || e.ty == "instantiate" || e.ty == "migrate" || e.ty == "reply"
    ensures !IsWasm(e)
  {
    assert e.ty[0] != 'w' && "wasm-"[0] == 'w';
  }

  lemma NamedConcat(a: seq<Event>, xs: set<Addr>, b: seq<Event>, ys: set<Addr>)
    requires AllNamed(a, xs) && AllNamed(b, ys)
    ensures AllNamed(a + b, xs + ys)
  {
  }

  lemma ResponseNamed(k: Keeper, contract: Addr, custom: Event, resp: Response)
    requires Accepted(k, resp) && k.trim(CONTRACT_ATTR) == CONTRACT_ATTR && !IsWasm(custom)
    ensures AllNamed(BuildAppResponse(contract, custom, resp).events, {contract})
  {
    var events := BuildAppResponse(contract, custom, resp).events;
    forall i | 0 <= i < |events| && IsWasm(events[i]) ensures Names(events[i], {contract}) {
      if i > 0 { EventsNameTheContract(k, contract, custom, resp, i); }
    }
  }

  lemma {:induction false} EntryNamed(k: Keeper, contract: Addr, custom: Event, body: Code<Response>,
                                      reply: Option<Reply>, st: Kv)
    requires k.trim(CONTRACT_ATTR) == CONTRACT_ATTR && !IsWasm(custom) && QuietCode(body)
    ensures var r := EntryRun(k, contract, custom, body, reply, st).result;
            r.Ok? ==> AllNamed(r.value.events, EntryEntered(k, contract, body, reply, st))
    decreases CodeSize(body), 0
  {
    CallRunShrinks(k, contract, body, reply, st);
    QuietCodeRun(body, st, st, reply);
    var called := CallRun(k, contract, body, reply, st);
    if called.result.Ok? {
      var resp := called.result.value;
      ResponseNamed(k, contract, custom, resp);
      ProcessNamed(k, contract, BuildAppResponse(contract, custom, resp), {contract}, resp.messages, called.store);
    }
  }

  lemma {:induction false} ProcessNamed(k: Keeper, contract: Addr, app: AppResponse, already: set<Addr>,
                                        messages: seq<SubMsg>, st: Kv)
    requires k.trim(CONTRACT_ATTR) == CONTRACT_ATTR && AllNamed(app.events, already) && QuietSubs(messages)
    ensures var r := ProcessRun(k, contract, app, messages, st).result;
            r.Ok? ==> AllNamed(r.value.events, already + ProcessEntered(k, contract, messages, st))
    decreases SubsSize(messages), 1
  {
    if messages != [] {
      var sub := SubRun(k, contract, messages[0], st);
      SubNamed(k, contract, messages[0], st);
      if sub.result.Ok? {
        var r, entered := sub.result.value, SubEntered(k, contract, messages[0], st);
        NamedConcat(app.events, already, r.events, entered);
        ProcessNamed(k, contract, AppResponse(app.events + r.events, Or(r.data, app.data)), already + entered,
            messages[1..], sub.store);
        assert already + entered + ProcessEntered(k, contract, messages[1..], sub.store)
               == already + ProcessEntered(k, contract, messages, st);
      }
    }
  }

  lemma {:induction false} SubNamed(k: Keeper, contract: Addr, sub: SubMsg, st: Kv)
    requires k.trim(CONTRACT_ATTR) == CONTRACT_ATTR && QuietSub(sub)
    ensures var r := SubRun(k, contract, sub, st).result; r.Ok? ==>
            AllNamed(r.value.events, SubEntered(k, contract, sub, st))
    decreases SubSize(sub), 0
  {
    MsgNamed(k, contract, sub.msg, st);
    var ran := Transacted(MsgRun(k, contract, sub.msg, st), st);
    match ran.result
    case Ok(r) =>
      if sub.replyOn.Always? || sub.replyOn.OnSuccess? {
        var reply := Reply(sub.id, Ok(r));
        OwnEvent(ReplyEvent(contract, reply));
        EntryNamed(k, contract, ReplyEvent(contract, reply), sub.onReply, Some(reply), ran.store);
        var replied := ReplyRun(k, contract, sub.onReply, reply, ran.store).result;
        if replied.Ok? {
          NamedConcat(r.events, MsgEntered(k, contract, sub.msg, st),
                      replied.value.events, EntryEntered(k, contract, sub.onReply, Some(reply), ran.store));
        }
      }
    case Err(e) =>
      var reply := Reply(sub.id, Err(e));
      OwnEvent(ReplyEvent(contract, reply));
      EntryNamed(k, contract, ReplyEvent(contract, reply), sub.onReply, Some(reply), ran.store);
  }

  lemma {:induction false} FundedNamed(k: Keeper, contract: Addr, funds: Option<Code<AppResponse>>, custom: Event,
                                       body: Code<Response>, wrap: Option<bytes> -> Option<bytes>, st: Kv)
    requires k.trim(CONTRACT_ATTR) == CONTRACT_ATTR && !IsWasm(custom) && QuietFunds(funds) && QuietCode(body)
    ensures var r := FundedRun(k, contract, funds, custom, body, wrap, st).result;
            r.Ok? ==> AllNamed(r.value.events, FundedEntered(k, contract, funds, body, st))
    decreases CodeSize(body), 1
  {
    EntryNamed(k, contract, custom, body, None, FundsRun(funds, st).store);
  }

  /** In a run of any depth whose modules keep to their own events, every "wasm" event of the
      result names, first and only once, a contract that was entered in a part of that run
      that took effect. No contract, and no reply, can speak for another. */
  lemma {:induction false} MsgNamed(k: Keeper, sender: Addr, msg: Msg, st: Kv)
    requires k.trim(CONTRACT_ATTR) == CONTRACT_ATTR && QuietMsg(msg)
    ensures var r := MsgRun(k, sender, msg, st).result; r.Ok? ==>
            AllNamed(r.value.events, MsgEntered(k, sender, msg, st))
    decreases MsgSize(msg), 0
  {
    match msg
    case Module(handler) => QuietModuleRun(handler, st, st, {});
    case Execute(contract, funds, body) =>
      OwnEvent(ExecuteEvent(contract));
      FundedNamed(k, contract, funds, ExecuteEvent(contract), body, ExecuteData(k), st);
    case Instantiate(admin, codeId, title, funds, body) =>
      var contract := k.nextAddress(st);
      var op := k.saveContract(contract, ContractData(codeId, sender, admin, title, k.height));
      OwnEvent(CodeIdEvent(k, "instantiate", contract, codeId));
      FundedNamed(k, contract, funds, CodeIdEvent(k, "instantiate", contract, codeId), body,
          InstantiateData(k, contract), op.On(st));
    case Migrate(contract, codeId, body) =>
      var found := k.loadContract(st, contract);
      if found.Some? {
        var op := k.saveContract(contract, found.value.(codeId := codeId));
        OwnEvent(CodeIdEvent(k, "migrate", contract, codeId));
        FundedNamed(k, contract, None, CodeIdEvent(k, "migrate", contract, codeId), body, ExecuteData(k), op.On(st));
      }
    case UpdateAdmin(_, _) =>
  }
}
