/** The capability list the client keeps, over refresh, LOGIN and AUTHENTICATE. */
module Capabilities {
  import opened Base
  import opened Imap
  import opened Tasks
  import opened Folds

  /** One resolved task: the responses it heard and the status it completed with, or a
      stream that failed before. */
  datatype Exchange = Exchange(heard: seq<Msg>, verdict: StatusBody) | Interrupted

  datatype ClientError = StreamError | TaskFailed(error: TaskError)

  datatype Call =
    | RefreshCall(exchange: Exchange)
    | LoginCall(username: Bytes, password: Bytes, exchange: Exchange, refresh: Exchange)
    | AuthenticateCall(task: Task, exchange: Exchange, refresh: Exchange)

  // ----- Which report wins ------------------------------------------------------------

  function CodeCaps(body: StatusBody): Option<Caps> {
    if IsCapabilityCode(body.code) then Some(body.code.value.caps) else None
  }

  /** CAPABILITY: the latest list in a data response or an untagged status, else the list
      in the completion. */
  function RefreshReport(x: Exchange): Option<Caps> {
    if x.Interrupted? || x.verdict.kind != OK then None
    else
      var latest := Latest(x.heard, CapsAnywhere, None);
      if latest.Some? then latest else CodeCaps(x.verdict)
  }

  /** LOGIN and AUTHENTICATE: the list in the completion, else the latest data response,
      else what an explicit refresh reports. */
  function SignInReport(x: Exchange, refresh: Exchange): Option<Caps> {
    if x.Interrupted? || x.verdict.kind != OK then None
    else if CodeCaps(x.verdict).Some? then CodeCaps(x.verdict)
    else
      var latest := Latest(x.heard, CapsInData, None);
      if latest.Some? then latest else RefreshReport(refresh)
  }

  /** The list a call installs; None when it fails. */
  function Report(call: Call): Option<Caps> {
    match call
    case RefreshCall(exchange) => RefreshReport(exchange)
    case LoginCall(_, _, exchange, refresh) => SignInReport(exchange, refresh)
    case AuthenticateCall(_, exchange, refresh) => SignInReport(exchange, refresh)
  }

  predicate WellFormed(call: Call) {
    call.AuthenticateCall? ==> Constructed(call.task)
  }

  /** The list after `calls`: the report of the latest call that succeeded. */
  function Current(initial: Caps, calls: seq<Call>): Caps {
    if calls == [] then initial
    else
      var report := Report(calls[|calls| - 1]);
      if report.Some? then report.value else Current(initial, calls[..|calls| - 1])
  }

  /** Read forwards: `i` is the latest call that succeeded. */
  lemma {:induction false} CurrentIsLatestReport(initial: Caps, calls: seq<Call>, i: nat)
    requires i < |calls| && Report(calls[i]).Some?
    requires forall j :: i < j < |calls| ==> Report(calls[j]) == None
    ensures Current(initial, calls) == Report(calls[i]).value
  {
    hide Report;
    if i == |calls| - 1 {
    } else {
      var init := calls[..|calls| - 1];
      assert forall j :: i < j < |init| ==> Report(init[j]) == Report(calls[j]);
      CurrentIsLatestReport(initial, init, i);
    }
  }

  lemma {:induction false} FailuresLeaveCurrent(initial: Caps, calls: seq<Call>)
    requires forall i :: 0 <= i < |calls| ==> Report(calls[i]) == None
    ensures Current(initial, calls) == initial
  {
    hide Report;
    if calls == [] {
    } else {
      var init := calls[..|calls| - 1];
      assert forall i :: 0 <= i < |init| ==> Report(init[i]) == Report(calls[i]);
      FailuresLeaveCurrent(initial, init);
    }
  }

  // ----- The client ------------------------------------------------------------------------

  /** The output of a task resolved by `exchange`. */
  function OutputIn(task: Task, exchange: Exchange): Option<Output> {
    if exchange.Interrupted? then None else Some(Finish(Fold(task, exchange.heard), exchange.verdict))
  }

  lemma RefreshOutcome(exchange: Exchange)
    ensures
      var out := OutputIn(CapabilityTask(None), exchange);
      if RefreshReport(exchange).Some?
      then out == Some(CapsOut(Ok(RefreshReport(exchange).value)))
      else out.Some? ==> out.value.CapsOut? && out.value.caps.Err?
  {
    if exchange.Exchange? {
      CapabilityKeepsLatest(CapabilityTask(None), exchange.heard);
    }
  }

  /** A success that reported no capabilities at all. */
  predicate AsksForRefresh(x: Exchange) {
    x.Exchange? && x.verdict.kind == OK && CodeCaps(x.verdict) == None && Latest(x.heard, CapsInData, None) == None
  }

  lemma RefreshDecidesIff(x: Exchange, refresh: Exchange)
    ensures SignInReport(x, refresh) ==
            if AsksForRefresh(x) then RefreshReport(refresh) else SignInReport(x, Interrupted)
  {
  }

  /** A fresh LOGIN or AUTHENTICATE. */
  predicate IsSignIn(task: Task) {
    (task.LoginTask? && task.loginCaps == None) || Constructed(task)
  }

  lemma SignInOutcome(task: Task, exchange: Exchange)
    requires IsSignIn(task)
    ensures
      var out := OutputIn(task, exchange);
      if exchange.Interrupted? then out == None
      else if exchange.verdict.kind != OK then out.value.MaybeCapsOut? && out.value.maybeCaps.Err?
      else out == Some(MaybeCapsOut(Ok(
             if CodeCaps(exchange.verdict).Some? then CodeCaps(exchange.verdict)
             else Latest(exchange.heard, CapsInData, None))))
  {
    if exchange.Exchange? {
      if task.LoginTask? {
        LoginKeepsLatest(task, exchange.heard);
      } else {
        AuthenticateSpendsLineOnce(task, exchange.heard);
      }
    }
  }

  class ClientState {
    var capabilities: Caps

    constructor ()
      ensures capabilities == [Imap4Rev1]
    {
      capabilities := [Imap4Rev1];
    }

    method RefreshCapabilities(exchange: Exchange) returns (result: Result<(), ClientError>)
      modifies this
      ensures result.Ok? <==> RefreshReport(exchange).Some?
      ensures capabilities == if RefreshReport(exchange).Some? then RefreshReport(exchange).value else old(capabilities)
    {
      result := TakeRefresh(OutputIn(CapabilityTask(None), exchange), exchange);
    }

    /** What is done with the output of a CAPABILITY task, or with the lack of one. */
    method TakeRefresh(out: Option<Output>, ghost exchange: Exchange) returns (result: Result<(), ClientError>)
      requires out == OutputIn(CapabilityTask(None), exchange)
      modifies this
      ensures result.Ok? <==> RefreshReport(exchange).Some?
      ensures capabilities == if RefreshReport(exchange).Some? then RefreshReport(exchange).value else old(capabilities)
    {
      RefreshOutcome(exchange);
      if out == None {
        return Err(StreamError);
      }
      match out.value.caps {
        case Ok(caps) =>
          capabilities := caps;
          result := Ok(());
        case Err(error) => result := Err(TaskFailed(error));
      }
    }

    /** What is done with the output of a LOGIN or AUTHENTICATE task; None asks for a refresh. */
    method TakeSignIn(out: Option<Output>, ghost task: Task, ghost exchange: Exchange)
      returns (result: Option<Result<(), ClientError>>)
      requires IsSignIn(task) && out == OutputIn(task, exchange)
      modifies this
      ensures result == None <==> AsksForRefresh(exchange)
      ensures result == None ==> capabilities == old(capabilities)
      ensures result.Some? ==> (result.value.Ok? <==> SignInReport(exchange, Interrupted).Some?)
      ensures result.Some? && result.value.Ok? ==> capabilities == SignInReport(exchange, Interrupted).value
      ensures result.Some? && result.value.Err? ==> capabilities == old(capabilities)
    {
      SignInOutcome(task, exchange);
      if out == None {
        return Some(Err(StreamError));
      }
      match out.value.maybeCaps {
        case Ok(Some(caps)) =>
          capabilities := caps;
          result := Some(Ok(()));
        case Ok(None) => result := None;
        case Err(error) => result := Some(Err(TaskFailed(error)));
      }
    }

    method SignIn(task: Task, exchange: Exchange, refresh: Exchange) returns (result: Result<(), ClientError>)
      requires IsSignIn(task)
      modifies this
      ensures result.Ok? <==> SignInReport(exchange, refresh).Some?
      ensures capabilities ==
              if SignInReport(exchange, refresh).Some? then SignInReport(exchange, refresh).value else old(capabilities)
    {
      RefreshDecidesIff(exchange, refresh);
      var done := TakeSignIn(OutputIn(task, exchange), task, exchange);
      if done.Some? {
        result := done.value;
      } else {
        result := RefreshCapabilities(refresh);
      }
    }

    /** Any sequence of calls, whether they fail or not, leaves the list current. */
    method Serve(calls: seq<Call>)
      requires forall call :: call in calls ==> WellFormed(call)
      modifies this
      ensures capabilities == Current(old(capabilities), calls)
    {
      for i := 0 to |calls|
        invariant capabilities == Current(old(capabilities), calls[..i])
      {
        assert calls[..i + 1][..i] == calls[..i];
        assert calls[i] in calls;
        match calls[i] {
          case RefreshCall(exchange) => var _ := RefreshCapabilities(exchange);
          case LoginCall(username, password, exchange, refresh) =>
            var _ := SignIn(LoginTask(username, password, None), exchange, refresh);
          case AuthenticateCall(task, exchange, refresh) => var _ := SignIn(task, exchange, refresh);
        }
      }
      assert calls[..|calls|] == calls;
    }
  }
}
