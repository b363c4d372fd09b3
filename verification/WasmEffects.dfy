// What each message, entry point and submessage comes to, case by case.
module WasmEffects {
  import opened Bytes
  import opened Transactions
  import opened Wasm

  // ---------------------------------------------------------------------------
  // Responses
  // ---------------------------------------------------------------------------

  /** Its name or its value is blank, or its name is reserved. */
  predicate BadAttribute(k: Keeper, a: Attribute) {
    k.trim(a.0) == "" || k.trim(a.1) == "" || "_" <= k.trim(a.0)
  }

  /** A response is refused iff some attribute of its own, or of one of its events, is bad, or
      the name of one of its events has fewer than two characters. */
  lemma RefusedIff(k: Keeper, resp: Response)
    ensures !Accepted(k, resp) <==>
              || (exists a :: a in resp.attributes && BadAttribute(k, a))
              || (exists e, a :: e in resp.events && a in e.attributes && BadAttribute(k, a))
              || (exists e :: e in resp.events && |k.trim(e.ty)| < 2)
  {
    AttributesRefusedIff(k, resp.attributes);
    forall e | e in resp.events
      ensures !AttributesAccepted(k, e.attributes) <==> exists a :: a in e.attributes && BadAttribute(k, a) {
      AttributesRefusedIff(k, e.attributes);
    }
  }

  lemma AttributesRefusedIff(k: Keeper, attributes: seq<Attribute>)
    ensures !AttributesAccepted(k, attributes) <==> exists a :: a in attributes && BadAttribute(k, a)
  {
    if a :| a in attributes && BadAttribute(k, a) {
      var i :| 0 <= i < |attributes| && attributes[i] == a;
    }
    if !AttributesAccepted(k, attributes) {
      var i :| 0 <= i < |attributes| && !(k.trim(attributes[i].0) != "" && k.trim(attributes[i].1) != ""
                                          && k.trim(attributes[i].0)[0] != '_');
      assert BadAttribute(k, attributes[i]);
    }
  }

  /** The events of a response: the chain's own first, then the attributes as one "wasm" event
      if there are any, then each custom event under its "wasm-" name. Every one of the
      contract's begins with its address, and what it says itself follows unchanged. */
  lemma AppResponseExact(contract: Addr, custom: Event, resp: Response)
    ensures var app := BuildAppResponse(contract, custom, resp);
            var n, own := if resp.attributes == [] then 1 else 2, ("_contract_addr", contract);
            && app.data == resp.data && |app.events| == n + |resp.events| && app.events[0] == custom
            && (resp.attributes != [] ==> app.events[1] == Event("wasm", [own] + resp.attributes))
            && forall i | 0 <= i < |resp.events| :: app.events[n + i]
                 == Event("wasm-" + resp.events[i].ty, [own] + resp.events[i].attributes)
  {
  }

  // ---------------------------------------------------------------------------
  // Handlers
  // ---------------------------------------------------------------------------

  /** A handler that first makes the given writes. */
  function Writing<R>(ops: seq<Op>, next: Code<R>): Code<R> {
    if ops == [] then next else Write((_: Env) => ops[0], Writing(ops[1..], next))
  }

  /** However much a handler has written, it reads back its own writes, while its queries are
      still answered from where it started. */
  lemma {:induction false} QueriesSeeTheStart<R>(ops: seq<Op>, test: Env -> bool, yes: Code<R>, no: Code<R>, st: Kv,
                                                 queried: Kv, reply: Option<Reply>)
    ensures var written := Replay(ops, st);
            CodeRun(Writing(ops, Branch(test, yes, no)), st, queried, reply)
            == After(ops, CodeRun(if test(Env(written, queried, reply)) then yes else no, written, queried, reply))
    decreases |ops|
  {
    var next := Branch(test, yes, no);
    if ops == [] {
      assert Writing(ops, next) == next;
    } else {
      QueriesSeeTheStart(ops[1..], test, yes, no, ops[0].On(st), queried, reply);
      ReplayOne(ops[0], st);
      ReplayConcat([ops[0]], ops[1..], st);
      assert [ops[0]] + ops[1..] == ops;
    }
  }

  // ---------------------------------------------------------------------------
  // Entry points
  // ---------------------------------------------------------------------------

  /** An entry point is looked up, runs, and is checked, and only then do its submessages run. A
      handler that fails takes its writes with it; a refused response does not. */
  lemma EntryOutcome(k: Keeper, contract: Addr, custom: Event, body: Code<Response>, reply: Option<Reply>, st: Kv)
    ensures var out, ran := EntryRun(k, contract, custom, body, reply, st), CodeRun(body, st, st, reply);
            match k.loadContract(st, contract)
            case None => out == Outcome(Err(ContractNotFound), st, [])
            case Some(data) =>
              if data.codeId !in k.codes then out == Outcome(Err(UnregisteredCodeId), st, [])
              else if ran.result.Err? then out == Outcome(Err(ran.result.error), st, [])
              else if !Accepted(k, ran.result.value) then out == Outcome(Err(InvalidResponse), ran.store, ran.log)
              else
                var resp := ran.result.value;
                var rest := ProcessRun(k, contract, BuildAppResponse(contract, custom, resp), resp.messages, ran.store);
                out == Outcome(rest.result, rest.store, ran.log + rest.log)
  {
  }

  // ---------------------------------------------------------------------------
  // Submessages
  // ---------------------------------------------------------------------------

  /** The reply handler that follows a submessage: it is told how the submessage ended, both in
      the event that announces it and in the reply itself, and sees what was left of it. */
  function Replying(k: Keeper, contract: Addr, sub: SubMsg, st: Kv): Outcome<AppResponse> {
    var m := MsgRun(k, contract, sub.msg, st);
    match m.result
    case Ok(r) =>
      EntryRun(k, contract, Event("reply", [("_contract_addr", contract), ("mode", "handle_success")]),
        sub.onReply, Some(Reply(sub.id, Ok(r))), m.store)
    case Err(e) =>
      EntryRun(k, contract, Event("reply", [("_contract_addr", contract), ("mode", "handle_failure")]),
        sub.onReply, Some(Reply(sub.id, Err(e))), st)
  }

  /** All eight cases. A submessage that succeeds keeps its writes; its data is dropped, or
      replaced by the reply's, whose events join its own. One that fails leaves nothing, and
      either its reply stands for it or its error is passed on. */
  lemma SubmessageEffect(k: Keeper, contract: Addr, sub: SubMsg, st: Kv)
    ensures var m, q, out := MsgRun(k, contract, sub.msg, st), Replying(k, contract, sub, st),
            SubRun(k, contract, sub, st);
            match (m.result, sub.replyOn)
            case (Ok(r), Always) => Joined(r, m.log, q, out)
            case (Ok(r), OnSuccess) => Joined(r, m.log, q, out)
            case (Ok(r), OnError) => out == Outcome(Ok(AppResponse(r.events, None)), m.store, m.log)
            case (Ok(r), Never) => out == Outcome(Ok(AppResponse(r.events, None)), m.store, m.log)
            case (Err(e), Always) => out == q
            case (Err(e), OnError) => out == q
            case (Err(e), OnSuccess) => out == Outcome(Err(e), st, [])
            case (Err(e), Never) => out == Outcome(Err(e), st, [])
  {
  }

  /** A message's response, and then its reply's. */
  ghost predicate Joined(r: AppResponse, log: seq<Op>, q: Outcome<AppResponse>, out: Outcome<AppResponse>) {
    && out.store == q.store && out.log == log + q.log
    && match q.result
       case Ok(reply) => out.result == Ok(AppResponse(r.events + reply.events, reply.data))
       case Err(e) => out.result == Err(e)
  }

  // ---------------------------------------------------------------------------
  // Messages
  // ---------------------------------------------------------------------------

  /** The funds are sent first, and if that fails the contract is not entered; then its entry
      point runs on what the transfer left. `wrap` says what becomes of the data. */
  ghost predicate Funded(k: Keeper, contract: Addr, funds: Option<Code<AppResponse>>, custom: Event,
                         body: Code<Response>, wrap: Option<bytes> -> Option<bytes>, st: Kv,
                         out: Outcome<AppResponse>) {
    match funds
    case None => Wrapped(wrap, [], EntryRun(k, contract, custom, body, None, st), out)
    case Some(send) =>
      var sent := CodeRun(send, st, st, None);
      if sent.result.Err? then out == sent
      else Wrapped(wrap, sent.log, EntryRun(k, contract, custom, body, None, sent.store), out)
  }

  /** What the entry point did, after earlier writes and with its data wrapped. */
  ghost predicate Wrapped(wrap: Option<bytes> -> Option<bytes>, log: seq<Op>, entry: Outcome<AppResponse>,
                          out: Outcome<AppResponse>) {
    && out.store == entry.store && out.log == log + entry.log
    && match entry.result
       case Ok(r) => out.result == Ok(AppResponse(r.events, wrap(r.data)))
       case Err(e) => out.result == Err(e)
  }

  lemma FundedExact(k: Keeper, contract: Addr, funds: Option<Code<AppResponse>>, custom: Event, body: Code<Response>,
                    wrap: Option<bytes> -> Option<bytes>, st: Kv)
    ensures Funded(k, contract, funds, custom, body, wrap, st,
              FundedRun(k, contract, funds, custom, body, wrap, st))
  {
  }

  /** The chain's own modules work straight on the storage, failures included. */
  lemma ModuleEffect(k: Keeper, sender: Addr, handler: Code<AppResponse>, st: Kv)
    ensures MsgRun(k, sender, Module(handler), st) == CodeRun(handler, st, st, None)
  {
  }

  /** Executing a contract wraps its data, if it has any. */
  lemma ExecuteEffect(k: Keeper, sender: Addr, contract: Addr, funds: Option<Code<AppResponse>>, body: Code<Response>,
                      st: Kv)
    ensures Funded(k, contract, funds, Event("execute", [("_contract_addr", contract)]), body,
              (d: Option<bytes>) => if d.Some? then Some(k.executeData(d.value)) else None, st,
              MsgRun(k, sender, Execute(contract, funds, body), st))
  {
  }

  /** Instantiation needs a label and a registered code. It saves the contract under the next
      address, with whoever sent the message as its creator, before anything else happens; the
      contract's address always comes back with the data. */
  lemma InstantiateEffect(k: Keeper, sender: Addr, admin: Option<Addr>, codeId: nat, title: string,
                          funds: Option<Code<AppResponse>>, body: Code<Response>, st: Kv)
    ensures var out := MsgRun(k, sender, Instantiate(admin, codeId, title, funds, body), st);
            if title == "" then out == Outcome(Err(EmptyLabel), st, [])
            else if codeId !in k.codes then out == Outcome(Err(UnregisteredCodeId), st, [])
            else
              var contract := k.nextAddress(st);
              var save := k.saveContract(contract, ContractData(codeId, sender, admin, title, k.height));
              var event := Event("instantiate", [("_contract_addr", contract), ("code_id", k.digits(codeId))]);
              StartsWith(save, out) && Funded(k, contract, funds, event, body,
                (d: Option<bytes>) => Some(k.instantiateData(if d.Some? then d.value else [], contract)),
                save.On(st), WithoutFirst(out))
  {
    if title != "" && codeId in k.codes {
      var contract := k.nextAddress(st);
      var save := k.saveContract(contract, ContractData(codeId, sender, admin, title, k.height));
      var event := CodeIdEvent(k, "instantiate", contract, codeId);
      var rest := FundedRun(k, contract, funds, event, body, InstantiateData(k, contract), save.On(st));
      assert MsgRun(k, sender, Instantiate(admin, codeId, title, funds, body), st) == After([save], rest);
      assert WithoutFirst(After([save], rest)) == rest;
      FundedExact(k, contract, funds, event, body, InstantiateData(k, contract), save.On(st));
    }
  }

  ghost predicate StartsWith<T>(op: Op, out: Outcome<T>) {
    out.log != [] && out.log[0] == op
  }

  function WithoutFirst<T>(out: Outcome<T>): Outcome<T> {
    if out.log == [] then out else out.(log := out.log[1..])
  }

  /** Whether `sender` may change the contract: only its admin may, and a contract without one
      stays as it is. */
  predicate MayChange(k: Keeper, sender: Addr, contract: Addr, st: Kv) {
    k.loadContract(st, contract).Some? && k.loadContract(st, contract).value.admin == Some(sender)
  }

  /** Only the admin migrates, and only to a registered code: anyone else changes nothing. The
      new code id is saved before the new code runs, and it is all that changes in the record. */
  lemma MigrateEffect(k: Keeper, sender: Addr, contract: Addr, codeId: nat, body: Code<Response>, st: Kv)
    ensures var out := MsgRun(k, sender, Migrate(contract, codeId, body), st);
            if codeId !in k.codes then out == Outcome(Err(UnregisteredCodeId), st, [])
            else match k.loadContract(st, contract)
              case None => out == Outcome(Err(ContractNotFound), st, [])
              case Some(data) =>
                if data.admin != Some(sender) then out == Outcome(Err(NotAdmin), st, [])
                else
                  var save := k.saveContract(contract,
                    ContractData(codeId, data.creator, data.admin, data.title, data.created));
                  var event := Event("migrate", [("_contract_addr", contract), ("code_id", k.digits(codeId))]);
                  Wrapped((d: Option<bytes>) => if d.Some? then Some(k.executeData(d.value)) else None, [save],
                    EntryRun(k, contract, event, body, None, save.On(st)), out)
    ensures MsgRun(k, sender, Migrate(contract, codeId, body), st).result.Ok?
            ==> MayChange(k, sender, contract, st) && codeId in k.codes
  {
    if codeId in k.codes && MayChange(k, sender, contract, st) {
      var data := k.loadContract(st, contract).value;
      var save := k.saveContract(contract, data.(codeId := codeId));
      FundedExact(k, contract, None, CodeIdEvent(k, "migrate", contract, codeId), body, ExecuteData(k), save.On(st));
    }
  }

  /** Only the admin names its successor, or none; and that is all that changes in the record. */
  lemma UpdateAdminEffect(k: Keeper, sender: Addr, contract: Addr, admin: Option<Addr>, st: Kv)
    ensures var out := MsgRun(k, sender, UpdateAdmin(contract, admin), st);
            match k.loadContract(st, contract)
            case None => out == Outcome(Err(ContractNotFound), st, [])
            case Some(data) =>
              if data.admin != Some(sender) then out == Outcome(Err(NotAdmin), st, [])
              else
                var save := k.saveContract(contract,
                  ContractData(data.codeId, data.creator, admin, data.title, data.created));
                out == Outcome(Ok(AppResponse([], None)), save.On(st), [save])
    ensures MsgRun(k, sender, UpdateAdmin(contract, admin), st).result.Ok? <==> MayChange(k, sender, contract, st)
  {
  }

  // ---------------------------------------------------------------------------
  // Lists of messages
  // ---------------------------------------------------------------------------

  lemma OneMessage(k: Keeper, sender: Addr, msg: Msg, st: Kv)
    ensures var out, ran := MultiRun(k, sender, [msg], st), MsgRun(k, sender, msg, st);
            && out.store == ran.store && out.log == ran.log
            && out.result == match ran.result case Ok(r) => Ok([r]) case Err(e) => Err(e)
  {
    assert [msg][1..] == [];
    var ran := MsgRun(k, sender, msg, st);
    assert ran.log + [] == ran.log;
    if ran.result.Ok? { assert [ran.result.value] + [] == [ran.result.value]; }
  }

  /** A run after a run: the second part sees what the first one left, and is not reached if the
      first one failed. */
  ghost predicate InSequence(first: Outcome<seq<AppResponse>>, second: Outcome<seq<AppResponse>>,
                             out: Outcome<seq<AppResponse>>) {
    if first.result.Err? then out == first
    else
      && out.store == second.store && out.log == first.log + second.log
      && match second.result
         case Ok(rs) => out.result == Ok(first.result.value + rs)
         case Err(e) => out.result == Err(e)
  }

  /** However a list of messages is cut in two, it is its parts in sequence. */
  lemma {:induction false} MessagesInSequence(k: Keeper, sender: Addr, a: seq<Msg>, b: seq<Msg>, st: Kv)
    ensures var first := MultiRun(k, sender, a, st);
            InSequence(first, MultiRun(k, sender, b, first.store), MultiRun(k, sender, a + b, st))
    decreases |a|
  {
    if a == [] {
      var second := MultiRun(k, sender, b, st);
      assert a + b == b && [] + second.log == second.log;
      if second.result.Ok? { assert [] + second.result.value == second.result.value; }
    } else {
      var ran := MsgRun(k, sender, a[0], st);
      if ran.result.Ok? {
        MessagesInSequence(k, sender, a[1..], b, ran.store);
        assert (a + b)[1..] == a[1..] + b;
        var first := MultiRun(k, sender, a[1..], ran.store);
        var second := MultiRun(k, sender, b, first.store);
        SequenceCons(ran, first, second, MultiRun(k, sender, a[1..] + b, ran.store));
      }
    }
  }

  function Cons(ran: Outcome<AppResponse>, rest: Outcome<seq<AppResponse>>): Outcome<seq<AppResponse>> {
    match ran.result
    case Err(e) => Outcome(Err(e), ran.store, ran.log)
    case Ok(r) =>
      match rest.result
      case Err(e) => After(ran.log, rest)
      case Ok(rs) => After(ran.log, rest).(result := Ok([r] + rs))
  }

  lemma SequenceCons(ran: Outcome<AppResponse>, first: Outcome<seq<AppResponse>>, second: Outcome<seq<AppResponse>>,
                     rest: Outcome<seq<AppResponse>>)
    requires ran.result.Ok? && InSequence(first, second, rest)
    ensures InSequence(Cons(ran, first), second, Cons(ran, rest))
  {
    assert ran.log + (first.log + second.log) == (ran.log + first.log) + second.log;
    if first.result.Ok? && second.result.Ok? {
      var r, x, y := ran.result.value, first.result.value, second.result.value;
      assert [r] + (x + y) == ([r] + x) + y;
    }
  }

  /** The submessages of a response likewise, each adding its events to the response so far and
      replacing its data if it has any. */
  lemma OneSubmessage(k: Keeper, contract: Addr, app: AppResponse, sub: SubMsg, st: Kv)
    ensures var out, ran := ProcessRun(k, contract, app, [sub], st), SubRun(k, contract, sub, st);
            && out.store == ran.store && out.log == ran.log
            && match ran.result
               case Err(e) => out.result == Err(e)
               case Ok(r) =>
                 out.result == Ok(AppResponse(app.events + r.events, if r.data.Some? then r.data else app.data))
  {
    assert [sub][1..] == [];
  }

  lemma {:induction false} SubmessagesInSequence(k: Keeper, contract: Addr, app: AppResponse, a: seq<SubMsg>,
                                                 b: seq<SubMsg>, st: Kv)
    ensures var first, out := ProcessRun(k, contract, app, a, st), ProcessRun(k, contract, app, a + b, st);
            match first.result
            case Err(e) => out == first
            case Ok(sofar) =>
              var second := ProcessRun(k, contract, sofar, b, first.store);
              out == Outcome(second.result, second.store, first.log + second.log)
    decreases |a|
  {
    if a == [] {
      assert a + b == b;
    } else {
      var ran := SubRun(k, contract, a[0], st);
      assert (a + b)[0] == a[0] && (a + b)[1..] == a[1..] + b;
      if ran.result.Ok? {
        var r := ran.result.value;
        var app' := AppResponse(app.events + r.events, Or(r.data, app.data));
        SubmessagesInSequence(k, contract, app', a[1..], b, ran.store);
        var first := ProcessRun(k, contract, app', a[1..], ran.store);
        if first.result.Ok? {
          var second := ProcessRun(k, contract, first.result.value, b, first.store);
          assert ran.log + (first.log + second.log) == (ran.log + first.log) + second.log;
        }
      }
    }
  }
}
