/** What a task answers, told from the responses it heard and the status it completed with alone:
    every kind of task, every list of responses, every status. */
module Answers {
  import opened Base
  import opened Imap
  import opened Tasks
  import opened Folds

  // ----- Reading responses ---------------------------------------------------------------

  /** `Latest` is the report of the last response that has one. */
  lemma {:induction false} LatestIsLast<T>(msgs: seq<Msg>, f: Msg -> Option<T>, initial: Option<T>, i: nat)
    requires i < |msgs| && f(msgs[i]).Some?
    requires forall j :: i < j < |msgs| ==> f(msgs[j]) == None
    ensures Latest(msgs, f, initial) == f(msgs[i])
  {
    if i == |msgs| - 1 {
    } else {
      LatestIsLast(msgs[..|msgs| - 1], f, initial, i);
    }
  }

  lemma {:induction false} LatestOfNone<T>(msgs: seq<Msg>, f: Msg -> Option<T>, initial: Option<T>)
    requires forall j :: 0 <= j < |msgs| ==> f(msgs[j]) == None
    ensures Latest(msgs, f, initial) == initial
  {
    if msgs == [] {
    } else {
      LatestOfNone(msgs[..|msgs| - 1], f, initial);
    }
  }

  function IdsIn(msg: Msg): Option<seq<nat>> {
    if msg.DataMsg? && msg.data.SearchData? then Some(msg.data.ids) else None
  }

  function OrderIn(msg: Msg): Option<seq<nat>> {
    if msg.DataMsg? && msg.data.SortData? then Some(msg.data.ids) else None
  }

  function ThreadsIn(msg: Msg): Option<seq<string>> {
    if msg.DataMsg? && msg.data.ThreadData? then Some(msg.data.threads) else None
  }

  function EnabledIn(msg: Msg): Option<seq<string>> {
    if msg.DataMsg? && msg.data.EnabledData? then Some(msg.data.enabled) else None
  }

  /** The parameters of the server, which may be reported as absent. */
  function ServerIn(msg: Msg): Option<Option<string>> {
    if msg.DataMsg? && msg.data.IdData? then Some(msg.data.parameters) else None
  }

  function ItemsIn(msg: Msg): Option<Items> {
    if msg.DataMsg? && msg.data.FetchData? then Some(msg.data.items) else None
  }

  function ItemsOf(num: nat): Msg -> Option<Items> {
    (msg: Msg) => if msg.DataMsg? && msg.data.FetchData? && msg.data.num == num then Some(msg.data.items) else None
  }

  function RowsIn(msgs: seq<Msg>): seq<string> {
    if msgs == [] then []
    else
      var last := msgs[|msgs| - 1];
      RowsIn(msgs[..|msgs| - 1]) + (if last.DataMsg? && last.data.ListData? then [last.data.row] else [])
  }

  function ExpungedIn(msgs: seq<Msg>): seq<nat> {
    if msgs == [] then []
    else
      var last := msgs[|msgs| - 1];
      ExpungedIn(msgs[..|msgs| - 1]) + (if last.DataMsg? && last.data.ExpungeData? then [last.data.num] else [])
  }

  function CapsInStatus(body: StatusBody): Option<Caps> {
    if body.code.Some? && body.code.value.CapabilityCode? then Some(body.code.value.caps) else None
  }

  // ----- The answer ----------------------------------------------------------------------

  /** What the constructors of the tasks start with: nothing collected yet. */
  predicate IsFresh(task: Task) {
    match task
    case PlainTask(_) => true
    case AppendUidTask(_) => true
    case ExistsTask(_, count) => count == None
    case AuthenticateTask(_, _, _, caps) => caps == None
    case CapabilityTask(found) => found == None
    case LoginTask(_, _, caps) => caps == None
    case LogoutTask(gotBye) => !gotBye
    case SelectTask(_, _, _, selected) =>
      selected == SelectData(None, None, None, None, None, None, None, None)
    case FetchTask(_, fetched) => fetched == map[]
    case FetchFirstTask(_, first) => first == None
    case StoreTask(_, stored) => stored == map[]
    case SearchTask(_, ids) => ids == []
    case SortTask(_, order) => order == None
    case ThreadTask(_, threads) => threads == None
    case ListTask(_, rows) => rows == []
    case ExpungeTask(expunged) => expunged == []
    case IdTask(_, server) => server == None
    case EnableTask(_, enabled) => enabled == None
  }

  /** The error in an output of any type. */
  function ErrorOf(output: Output): Option<TaskError> {
    match output
    case UnitOut(Err(error)) => Some(error)
    case CountOut(Err(error)) => Some(error)
    case AppendUidOut(Err(error)) => Some(error)
    case CapsOut(Err(error)) => Some(error)
    case MaybeCapsOut(Err(error)) => Some(error)
    case SelectOut(Err(error)) => Some(error)
    case FetchOut(Err(error)) => Some(error)
    case FetchFirstOut(Err(error)) => Some(error)
    case StoreOut(Err(error)) => Some(error)
    case IdsOut(Err(error)) => Some(error)
    case ThreadsOut(Err(error)) => Some(error)
    case RowsOut(Err(error)) => Some(error)
    case IdOut(Err(error)) => Some(error)
    case EnableOut(Err(error)) => Some(error)
    case _ => None
  }

  function OrMissing<T>(found: Option<T>, what: string): Result<T, TaskError> {
    if found.Some? then Ok(found.value) else Err(MissingData(what))
  }

  ghost predicate HeardBye(msgs: seq<Msg>) {
    exists i :: 0 <= i < |msgs| && msgs[i].ByeMsg?
  }

  ghost predicate FetchedAll(msgs: seq<Msg>, fetched: map<nat, set<Item>>) {
    && (forall num: nat :: num in fetched <==> Mentioned(msgs, num))
    && (forall num: nat :: num in fetched ==> fetched[num] == Reported(msgs, num))
  }

  ghost predicate StoredLatest(msgs: seq<Msg>, stored: map<nat, Items>) {
    forall num: nat ::
      if num in stored then Latest(msgs, ItemsOf(num), None) == Some(stored[num])
      else Latest(msgs, ItemsOf(num), None) == None
  }

  /** LOGIN and AUTHENTICATE: the list in the completion, else the latest in data. */
  function CompletionThenData(msgs: seq<Msg>, body: StatusBody): Option<Caps> {
    if CapsInStatus(body).Some? then CapsInStatus(body) else Latest(msgs, CapsInData, None)
  }

  /** CAPABILITY: the latest list in data or an untagged status, else the one in the completion. */
  function ReportThenCompletion(msgs: seq<Msg>, body: StatusBody): Option<Caps> {
    var latest := Latest(msgs, CapsAnywhere, None);
    if latest.Some? then latest else CapsInStatus(body)
  }

  /** `output` is what a success of `task` answers after `msgs`. */
  ghost predicate IsResult(task: Task, msgs: seq<Msg>, body: StatusBody, output: Output) {
    match task
    case PlainTask(_) => output == UnitOut(Ok(()))
    case AppendUidTask(_) =>
      output == AppendUidOut(Ok(
        match body.code
        case Some(AppendUidCode(uid, validity)) => Some((uid, validity))
        case _ => None))
    case ExistsTask(_, _) => output == CountOut(Ok(Latest(msgs, CountIn, None)))
    case AuthenticateTask(_, _, _, _) => output == MaybeCapsOut(Ok(CompletionThenData(msgs, body)))
    case LoginTask(_, _, _) => output == MaybeCapsOut(Ok(CompletionThenData(msgs, body)))
    case CapabilityTask(_) => output == CapsOut(OrMissing(ReportThenCompletion(msgs, body), "CAPABILITY"))
    case LogoutTask(_) => output == UnitOut(if HeardBye(msgs) then Ok(()) else Err(MissingData("LOGOUT: BYE")))
    case SelectTask(_, _, _, _) =>
      output == SelectOut(Ok(SelectData(
        Latest(msgs, FlagsIn, None), Latest(msgs, CountIn, None), Latest(msgs, RecentIn, None),
        Latest(msgs, UnseenIn, None), Latest(msgs, PermanentFlagsIn, None), Latest(msgs, UidNextIn, None),
        Latest(msgs, UidValidityIn, None), Latest(msgs, HighestModSeqIn, None))))
    case FetchTask(_, _) => output.FetchOut? && output.fetched.Ok? && FetchedAll(msgs, output.fetched.value)
    case FetchFirstTask(_, _) => output == FetchFirstOut(OrMissing(Latest(msgs, ItemsIn, None), "FETCH: items"))
    case StoreTask(_, _) => output.StoreOut? && output.stored.Ok? && StoredLatest(msgs, output.stored.value)
    case SearchTask(_, _) =>
      output == IdsOut(Ok(match Latest(msgs, IdsIn, None) case Some(ids) => ids case None => []))
    case SortTask(_, _) => output == IdsOut(OrMissing(Latest(msgs, OrderIn, None), "SORT"))
    case ThreadTask(_, _) => output == ThreadsOut(OrMissing(Latest(msgs, ThreadsIn, None), "SORT"))
    case ListTask(_, _) => output == RowsOut(Ok(RowsIn(msgs)))
    case ExpungeTask(_) => output == IdsOut(Ok(ExpungedIn(msgs)))
    case IdTask(_, _) =>
      output == IdOut(Ok(match Latest(msgs, ServerIn, None) case Some(server) => server case None => None))
    case EnableTask(_, _) => output == EnableOut(Ok(Latest(msgs, EnabledIn, None)))
  }

  /** `output` is the answer of `task` to a completion with `body` after `msgs`: the status itself as
      error when it is NO or BAD, and the result told from the responses when it is OK. */
  ghost predicate IsAnswer(task: Task, msgs: seq<Msg>, body: StatusBody, output: Output) {
    match body.kind
    case NO => ErrorOf(output) == Some(UnexpectedNo(body))
    case BAD => ErrorOf(output) == Some(UnexpectedBad(body))
    case OK => IsResult(task, msgs, body, output)
  }

  // ----- The answers are right -------------------------------------------------------------

  /** A refused command is an error that carries the refusal, whatever its task collected. */
  lemma {:induction false} RefusalIsTheError(task: Task, body: StatusBody)
    ensures body.kind == NO ==> ErrorOf(Finish(task, body)) == Some(UnexpectedNo(body))
    ensures body.kind == BAD ==> ErrorOf(Finish(task, body)) == Some(UnexpectedBad(body))
    ensures body.kind == OK ==> ErrorOf(Finish(task, body)).None? || ErrorOf(Finish(task, body)).value.MissingData?
  {
  }

  lemma {:induction false} StoreKeepsLatest(task: Task, msgs: seq<Msg>)
    requires task.StoreTask? && task.stored == map[]
    ensures Fold(task, msgs).StoreTask? && StoredLatest(msgs, Fold(task, msgs).stored)
  {
    if msgs == [] {
    } else {
      var init, last := msgs[..|msgs| - 1], msgs[|msgs| - 1];
      StoreKeepsLatest(task, init);
      forall num: nat
        ensures Latest(msgs, ItemsOf(num), None) ==
                if ItemsOf(num)(last).Some? then ItemsOf(num)(last) else Latest(init, ItemsOf(num), None)
      {
      }
    }
  }

  lemma {:induction false} FirstKeepsLatest(task: Task, msgs: seq<Msg>)
    requires task.FetchFirstTask?
    ensures Fold(task, msgs) == task.(first := Latest(msgs, ItemsIn, task.first))
  {
    if msgs == [] {
    } else {
      FirstKeepsLatest(task, msgs[..|msgs| - 1]);
    }
  }

  lemma {:induction false} SearchKeepsLatest(task: Task, msgs: seq<Msg>)
    requires task.SearchTask?
    ensures Latest(msgs, IdsIn, Some(task.ids)).Some?
    ensures Fold(task, msgs) == task.(ids := Latest(msgs, IdsIn, Some(task.ids)).value)
  {
    if msgs == [] {
    } else {
      SearchKeepsLatest(task, msgs[..|msgs| - 1]);
    }
  }

  lemma {:induction false} SortKeepsLatest(task: Task, msgs: seq<Msg>)
    requires task.SortTask?
    ensures Fold(task, msgs) == task.(order := Latest(msgs, OrderIn, task.order))
  {
    if msgs == [] {
    } else {
      SortKeepsLatest(task, msgs[..|msgs| - 1]);
    }
  }

  lemma {:induction false} ThreadKeepsLatest(task: Task, msgs: seq<Msg>)
    requires task.ThreadTask?
    ensures Fold(task, msgs) == task.(threads := Latest(msgs, ThreadsIn, task.threads))
  {
    if msgs == [] {
    } else {
      ThreadKeepsLatest(task, msgs[..|msgs| - 1]);
    }
  }

  lemma {:induction false} ListKeepsAll(task: Task, msgs: seq<Msg>)
    requires task.ListTask?
    ensures Fold(task, msgs) == task.(rows := task.rows + RowsIn(msgs))
  {
    if msgs == [] {
      assert task.rows + [] == task.rows;
    } else {
      ListKeepsAll(task, msgs[..|msgs| - 1]);
    }
  }

  lemma {:induction false} ExpungeKeepsAll(task: Task, msgs: seq<Msg>)
    requires task.ExpungeTask?
    ensures Fold(task, msgs) == task.(expunged := task.expunged + ExpungedIn(msgs))
  {
    if msgs == [] {
      assert task.expunged + [] == task.expunged;
    } else {
      ExpungeKeepsAll(task, msgs[..|msgs| - 1]);
    }
  }

  lemma {:induction false} IdKeepsLatest(task: Task, msgs: seq<Msg>)
    requires task.IdTask?
    ensures Latest(msgs, ServerIn, Some(task.server)).Some?
    ensures Fold(task, msgs) == task.(server := Latest(msgs, ServerIn, Some(task.server)).value)
  {
    if msgs == [] {
    } else {
      IdKeepsLatest(task, msgs[..|msgs| - 1]);
    }
  }

  lemma {:induction false} EnableKeepsLatest(task: Task, msgs: seq<Msg>)
    requires task.EnableTask?
    ensures Fold(task, msgs) == task.(enabled := Latest(msgs, EnabledIn, task.enabled))
  {
    if msgs == [] {
    } else {
      EnableKeepsLatest(task, msgs[..|msgs| - 1]);
    }
  }

  lemma {:induction false} PlainKeepsNothing(task: Task, msgs: seq<Msg>)
    requires task.PlainTask? || task.AppendUidTask?
    ensures Fold(task, msgs) == task
  {
    if msgs == [] {
    } else {
      PlainKeepsNothing(task, msgs[..|msgs| - 1]);
    }
  }

  /** Starting from a default is falling back on it at the end. */
  lemma {:induction false} LatestFallsBack<T>(msgs: seq<Msg>, f: Msg -> Option<T>, default: T)
    ensures Latest(msgs, f, Some(default)) ==
            if Latest(msgs, f, None).Some? then Latest(msgs, f, None) else Some(default)
  {
    if msgs == [] {
    } else {
      LatestFallsBack(msgs[..|msgs| - 1], f, default);
    }
  }

  lemma {:induction false} FetchAnswers(task: Task, msgs: seq<Msg>)
    requires task.FetchTask? && task.fetched == map[]
    ensures Fold(task, msgs).FetchTask? && FetchedAll(msgs, Fold(task, msgs).fetched)
  {
    FetchCollectsUnion(task, msgs);
    var end := Fold(task, msgs);
    forall num: nat | num in end.fetched ensures end.fetched[num] == Reported(msgs, num) {
      assert KnownItems(end.fetched, num) == KnownItems(task.fetched, num) + Reported(msgs, num);
    }
  }

  lemma {:induction false} CollectionsAreResults(task: Task, msgs: seq<Msg>, body: StatusBody)
    requires IsFresh(task) && body.kind == OK
    requires task.FetchTask? || task.FetchFirstTask? || task.StoreTask? || task.ListTask? || task.ExpungeTask?
             || task.PlainTask? || task.AppendUidTask?
    ensures IsResult(task, msgs, body, Finish(Fold(task, msgs), body))
  {
    hide Fold, FetchedAll, StoredLatest, Latest, RowsIn, ExpungedIn;
    match task
    case FetchTask(_, _) => FetchAnswers(task, msgs);
    case FetchFirstTask(_, _) => FirstKeepsLatest(task, msgs);
    case StoreTask(_, _) => StoreKeepsLatest(task, msgs);
    case ListTask(_, _) =>
      ListKeepsAll(task, msgs);
      assert task.rows + RowsIn(msgs) == RowsIn(msgs);
    case ExpungeTask(_) =>
      ExpungeKeepsAll(task, msgs);
      assert task.expunged + ExpungedIn(msgs) == ExpungedIn(msgs);
    case _ => PlainKeepsNothing(task, msgs);
  }

  lemma {:induction false} ReportsAreResults(task: Task, msgs: seq<Msg>, body: StatusBody)
    requires IsFresh(task) && body.kind == OK
    requires task.SearchTask? || task.SortTask? || task.ThreadTask? || task.IdTask? || task.EnableTask?
    ensures IsResult(task, msgs, body, Finish(Fold(task, msgs), body))
  {
    hide Fold, Latest;
    match task
    case SearchTask(_, _) =>
      SearchKeepsLatest(task, msgs);
      LatestFallsBack(msgs, IdsIn, task.ids);
    case SortTask(_, _) => SortKeepsLatest(task, msgs);
    case ThreadTask(_, _) => ThreadKeepsLatest(task, msgs);
    case IdTask(_, _) =>
      IdKeepsLatest(task, msgs);
      LatestFallsBack(msgs, ServerIn, task.server);
    case EnableTask(_, _) => EnableKeepsLatest(task, msgs);
  }

  lemma {:induction false} StatesAreResults(task: Task, msgs: seq<Msg>, body: StatusBody)
    requires IsFresh(task) && body.kind == OK
    requires task.ExistsTask? || task.AuthenticateTask? || task.LoginTask? || task.CapabilityTask?
             || task.LogoutTask? || task.SelectTask?
    ensures IsResult(task, msgs, body, Finish(Fold(task, msgs), body))
  {
    hide Fold, Latest;
    match task
    case ExistsTask(_, _) => ExistsKeepsLatest(task, msgs);
    case AuthenticateTask(_, _, _, _) => AuthenticateSpendsLineOnce(task, msgs);
    case LoginTask(_, _, _) => LoginKeepsLatest(task, msgs);
    case CapabilityTask(_) => CapabilityKeepsLatest(task, msgs);
    case LogoutTask(_) => LogoutRemembersBye(msgs);
    case SelectTask(_, _, _, _) => SelectKeepsLatest(task, msgs);
  }

  /** Outputs of one type are of one kind, so a downcast that succeeds gives what it says. FETCH
      and STORE share a type. */
  lemma TypesTellOutputsApart(left: Output, right: Output)
    requires TypeOf(left) == TypeOf(right)
    ensures left.UnitOut? <==> right.UnitOut?
    ensures left.CountOut? <==> right.CountOut?
    ensures left.AppendUidOut? <==> right.AppendUidOut?
    ensures left.CapsOut? <==> right.CapsOut?
    ensures left.MaybeCapsOut? <==> right.MaybeCapsOut?
    ensures left.SelectOut? <==> right.SelectOut?
    ensures left.FetchOut? || left.StoreOut? <==> right.FetchOut? || right.StoreOut?
    ensures left.FetchFirstOut? <==> right.FetchFirstOut?
    ensures left.IdsOut? <==> right.IdsOut?
    ensures left.ThreadsOut? <==> right.ThreadsOut?
    ensures left.RowsOut? <==> right.RowsOut?
    ensures left.IdOut? <==> right.IdOut?
    ensures left.EnableOut? <==> right.EnableOut?
  {
  }

  /** The responses the answer of `task` is told from; and the challenges of a SASL exchange. */
  predicate Concerns(task: Task, msg: Msg) {
    match task
    case PlainTask(_) => false
    case AppendUidTask(_) => false
    case ExistsTask(_, _) => CountIn(msg).Some?
    case AuthenticateTask(_, _, _, _) => CapsInData(msg).Some? || msg.ChallengeMsg?
    case CapabilityTask(_) => CapsAnywhere(msg).Some?
    case LoginTask(_, _, _) => CapsInData(msg).Some?
    case LogoutTask(_) => msg.ByeMsg?
    case SelectTask(_, _, _, _) =>
      || FlagsIn(msg).Some? || CountIn(msg).Some? || RecentIn(msg).Some? || UnseenIn(msg).Some?
      || PermanentFlagsIn(msg).Some? || UidNextIn(msg).Some? || UidValidityIn(msg).Some? || HighestModSeqIn(msg).Some?
    case FetchTask(_, _) => ItemsIn(msg).Some?
    case FetchFirstTask(_, _) => ItemsIn(msg).Some?
    case StoreTask(_, _) => ItemsIn(msg).Some?
    case SearchTask(_, _) => IdsIn(msg).Some?
    case SortTask(_, _) => OrderIn(msg).Some?
    case ThreadTask(_, _) => ThreadsIn(msg).Some?
    case ListTask(_, _) => RowsIn([msg]) != []
    case ExpungeTask(_) => ExpungedIn([msg]) != []
    case IdTask(_, _) => ServerIn(msg).Some?
    case EnableTask(_, _) => EnabledIn(msg).Some?
  }

  lemma OneRow(msg: Msg)
    ensures RowsIn([msg]) != [] <==> msg.DataMsg? && msg.data.ListData?
    ensures ExpungedIn([msg]) != [] <==> msg.DataMsg? && msg.data.ExpungeData?
  {
    assert [msg][..0] == [];
  }

  lemma DataTakenIffConcerned(task: Task, data: Data)
    ensures Wants(task, DataMsg(data)) <==> Concerns(task, DataMsg(data))
  {
    hide RowsIn, ExpungedIn;
    OneRow(DataMsg(data));
  }

  /** Nothing is taken in vain and nothing that counts is passed on: a task takes exactly the
      responses its answer is told from. */
  lemma {:induction false} TakenIffConcerned(task: Task, msg: Msg)
    ensures Wants(task, msg) <==> Concerns(task, msg)
  {
    hide RowsIn, ExpungedIn;
    OneRow(msg);
    match msg
    case DataMsg(data) => DataTakenIffConcerned(task, data);
    case UntaggedMsg(_) =>
    case _ =>
  }

  /** Every fresh task, every list of responses, every status: the answer is the right one. */
  lemma {:induction false} AnswersAreRight(task: Task, msgs: seq<Msg>, body: StatusBody)
    requires IsFresh(task)
    ensures IsAnswer(task, msgs, body, Finish(Fold(task, msgs), body))
  {
    hide Fold, Finish, IsResult, Latest;
    RefusalIsTheError(Fold(task, msgs), body);
    if body.kind == OK {
      if task.SearchTask? || task.SortTask? || task.ThreadTask? || task.IdTask? || task.EnableTask? {
        ReportsAreResults(task, msgs, body);
      } else if task.ExistsTask? || task.AuthenticateTask? || task.LoginTask? || task.CapabilityTask?
                || task.LogoutTask? || task.SelectTask? {
        StatesAreResults(task, msgs, body);
      } else {
        CollectionsAreResults(task, msgs, body);
      }
    }
  }

  // ----- The commands ------------------------------------------------------------------------

  /** The tasks whose command is given to them as a whole. */
  predicate IsRequest(task: Task) {
    || task.PlainTask? || task.AppendUidTask? || task.ExistsTask? || task.FetchTask? || task.FetchFirstTask?
    || task.StoreTask? || task.SearchTask? || task.SortTask? || task.ThreadTask? || task.ListTask? || task.IdTask?
    || task.EnableTask?
  }

  /** Each task issues its own command with its own fields; a read-only SELECT is an EXAMINE. */
  lemma CommandsAre(task: Task)
    requires task.AuthenticateTask? ==> task.line.Some?
    ensures
      var body := CommandBodyOf(task);
      && (task.LoginTask? ==> body.LoginBody? && body.username == task.username && body.password == task.password)
      && (task.SelectTask? && !task.readOnly ==>
            body.SelectBody? && body.mailbox == task.mailbox && body.condstore == task.condstore)
      && (task.SelectTask? && task.readOnly ==>
            body.ExamineBody? && body.mailbox == task.mailbox && body.condstore == task.condstore)
      && (task.AuthenticateTask? ==>
            && body.AuthenticateBody? && body.mechanism == task.mechanism
            && body.initialResponse == if task.ir then task.line else None)
      && (task.CapabilityTask? ==> body.CapabilityBody?)
      && (task.LogoutTask? ==> body.LogoutBody?)
      && (task.ExpungeTask? ==> body.ExpungeBody?)
      && (IsRequest(task) ==> body == task.request)
  {
  }

  /** The three constructors of AUTHENTICATE: mechanism, initial response as asked, nothing known. */
  lemma AuthenticatesAre(a: Bytes, b: Bytes, port: nat, token: Bytes, ir: bool)
    ensures
      var plain, bearer, xoauth2 :=
        PlainAuthenticate(a, b, ir), OAuthBearerAuthenticate(a, b, port, token, ir), XOAuth2Authenticate(a, token, ir);
      && plain.mechanism == Plain && bearer.mechanism == OAuthBearer && xoauth2.mechanism == XOAuth2
      && plain.ir == ir && bearer.ir == ir && xoauth2.ir == ir
      && IsFresh(plain) && IsFresh(bearer) && IsFresh(xoauth2)
  {
  }
}
