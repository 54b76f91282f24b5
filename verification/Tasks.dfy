/** The tasks: what each one takes from the stream of responses, what it keeps,
    and what it answers when its command completes.

    The routing of the library is written twice. `Wants` and `Absorb` say, response
    by response, who takes it and what changes; the methods of `TaskBox` follow the
    tasks' own code, one task at a time, and are proved against them. */
module Tasks {
  import opened Base
  import opened Imap

  datatype SelectData = SelectData(
    flags: Option<seq<string>>,
    exists_: Option<nat>,
    recent: Option<nat>,
    unseen: Option<nat>,
    permanentFlags: Option<seq<string>>,
    uidNext: Option<nat>,
    uidValidity: Option<nat>,
    highestModSeq: Option<nat>)

  datatype Task =
    | PlainTask(request: CommandBody)
    | AppendUidTask(request: CommandBody)
    | ExistsTask(request: CommandBody, count: Option<nat>)
    | AuthenticateTask(mechanism: AuthMechanism, line: Option<Bytes>, ir: bool, authCaps: Option<Caps>)
    | CapabilityTask(scratch: Option<Caps>)
    | LoginTask(username: Bytes, password: Bytes, loginCaps: Option<Caps>)
    | LogoutTask(gotBye: bool)
    | SelectTask(mailbox: string, readOnly: bool, condstore: bool, selected: SelectData)
    | FetchTask(request: CommandBody, fetched: map<nat, set<Item>>)
    | FetchFirstTask(request: CommandBody, first: Option<Items>)
    | StoreTask(request: CommandBody, stored: map<nat, Items>)
    | SearchTask(request: CommandBody, ids: seq<nat>)
    | SortTask(request: CommandBody, order: Option<seq<nat>>)
    | ThreadTask(request: CommandBody, threads: Option<seq<string>>)
    | ListTask(request: CommandBody, rows: seq<string>)
    | ExpungeTask(expunged: seq<nat>)
    | IdTask(request: CommandBody, server: Option<string>)
    | EnableTask(request: CommandBody, enabled: Option<seq<string>>)

  /** What a task can be offered: the four kinds of untagged response, and the
      challenge of a SASL exchange, which is addressed to one task. */
  datatype Msg =
    | DataMsg(data: Data)
    | UntaggedMsg(body: StatusBody)
    | ByeMsg(bye: Bye)
    | ContinuationMsg(continuation: Continuation)
    | ChallengeMsg(continuation: Continuation)

  datatype TaskError = UnexpectedBad(body: StatusBody) | UnexpectedNo(body: StatusBody) | MissingData(what: string)

  datatype Output =
    | UnitOut(unit: Result<(), TaskError>)
    | CountOut(count: Result<Option<nat>, TaskError>)
    | AppendUidOut(appended: Result<Option<(nat, nat)>, TaskError>)
    | CapsOut(caps: Result<Caps, TaskError>)
    | MaybeCapsOut(maybeCaps: Result<Option<Caps>, TaskError>)
    | SelectOut(selected: Result<SelectData, TaskError>)
    | FetchOut(fetched: Result<map<nat, set<Item>>, TaskError>)
    | FetchFirstOut(first: Result<Items, TaskError>)
    | StoreOut(stored: Result<map<nat, Items>, TaskError>)
    | IdsOut(ids: Result<seq<nat>, TaskError>)
    | ThreadsOut(threads: Result<seq<string>, TaskError>)
    | RowsOut(rows: Result<seq<string>, TaskError>)
    | IdOut(server: Result<Option<string>, TaskError>)
    | EnableOut(enabled: Result<Option<seq<string>>, TaskError>)

  /** The run-time type of an output. FETCH and STORE answer the same type, and so do
      all tasks that answer a list of numbers. */
  datatype OutputType =
    | UnitType | CountType | AppendUidType | CapsType | MaybeCapsType | SelectType
    | ItemMapType | ItemsType | NumbersType | ThreadsType | RowsType | IdType | EnableType

  function TypeOf(output: Output): OutputType {
    match output
    case UnitOut(_) => UnitType
    case CountOut(_) => CountType
    case AppendUidOut(_) => AppendUidType
    case CapsOut(_) => CapsType
    case MaybeCapsOut(_) => MaybeCapsType
    case SelectOut(_) => SelectType
    case FetchOut(_) => ItemMapType
    case FetchFirstOut(_) => ItemsType
    case StoreOut(_) => ItemMapType
    case IdsOut(_) => NumbersType
    case ThreadsOut(_) => ThreadsType
    case RowsOut(_) => RowsType
    case IdOut(_) => IdType
    case EnableOut(_) => EnableType
  }

  /** The associated output type of a task's type. */
  function OutputTypeOf(task: Task): OutputType {
    match task
    case PlainTask(_) => UnitType
    case AppendUidTask(_) => AppendUidType
    case ExistsTask(_, _) => CountType
    case AuthenticateTask(_, _, _, _) => MaybeCapsType
    case CapabilityTask(_) => CapsType
    case LoginTask(_, _, _) => MaybeCapsType
    case LogoutTask(_) => UnitType
    case SelectTask(_, _, _, _) => SelectType
    case FetchTask(_, _) => ItemMapType
    case FetchFirstTask(_, _) => ItemsType
    case StoreTask(_, _) => ItemMapType
    case SearchTask(_, _) => NumbersType
    case SortTask(_, _) => NumbersType
    case ThreadTask(_, _) => ThreadsType
    case ListTask(_, _) => RowsType
    case ExpungeTask(_) => NumbersType
    case IdTask(_, _) => IdType
    case EnableTask(_, _) => EnableType
  }

  /** The command a task issues; evaluated once, when the task is enqueued. */
  function CommandBodyOf(task: Task): CommandBody
    requires task.AuthenticateTask? && task.ir ==> task.line.Some?
  {
    match task
    case AuthenticateTask(mechanism, line, ir, _) =>
      AuthenticateBody(mechanism, if ir then Some(line.value) else None)
    case LoginTask(username, password, _) => LoginBody(username, password)
    case CapabilityTask(_) => CapabilityBody
    case LogoutTask(_) => LogoutBody
    case SelectTask(mailbox, readOnly, condstore, _) =>
      if readOnly then ExamineBody(mailbox, condstore) else SelectBody(mailbox, condstore)
    case ExpungeTask(_) => ExpungeBody
    case _ => task.request
  }

  // ----- The three ways to build an AUTHENTICATE --------------------------------------

  function Ascii(text: string): Bytes {
    seq(|text|, i requires 0 <= i < |text| => (text[i] as int % 128) as Byte)
  }

  function Decimal(n: nat): (digits: Bytes)
    ensures forall d :: d in digits ==> 48 <= d <= 57
  {
    if n < 10 then [(48 + n) as Byte] else Decimal(n / 10) + [(48 + n % 10) as Byte]
  }

  /** What every AUTHENTICATE starts with: a line, never empty, and no capabilities yet. */
  predicate Constructed(task: Task) {
    task.AuthenticateTask? && task.line.Some? && task.line.value != [] && task.authCaps == None
  }

  function PlainAuthenticate(login: Bytes, password: Bytes, ir: bool): (task: Task)
    ensures Constructed(task)
  {
    AuthenticateTask(Plain, Some([0] + login + [0] + password), ir, None)
  }

  function OAuthBearerAuthenticate(user: Bytes, host: Bytes, port: nat, token: Bytes, ir: bool): (task: Task)
    ensures Constructed(task)
  {
    var line := Ascii("n,a=") + user + Ascii(",") + [1] + Ascii("host=") + host + [1] + Ascii("port=") + Decimal(port)
                + [1] + Ascii("auth=Bearer ") + token + [1] + [1];
    AuthenticateTask(OAuthBearer, Some(line), ir, None)
  }

  function XOAuth2Authenticate(user: Bytes, token: Bytes, ir: bool): (task: Task)
    ensures Constructed(task)
  {
    var line := Ascii("user=") + user + [1] + Ascii("auth=Bearer ") + token + [1] + [1];
    AuthenticateTask(XOAuth2, Some(line), ir, None)
  }

  // ----- Who takes what ---------------------------------------------------------

  predicate IsCapabilityCode(code: Option<Code>) {
    code.Some? && code.value.CapabilityCode?
  }

  predicate IsSelectCode(code: Option<Code>) {
    && code.Some?
    && (code.value.UnseenCode? || code.value.PermanentFlagsCode? || code.value.UidNextCode?
        || code.value.UidValidityCode? || code.value.HighestModSeqCode?)
  }

  predicate WantsData(task: Task, data: Data) {
    match data
    case CapabilityData(_) => task.CapabilityTask? || task.LoginTask? || task.AuthenticateTask?
    case FlagsData(_) => task.SelectTask?
    case ExistsData(_) => task.SelectTask? || task.ExistsTask?
    case RecentData(_) => task.SelectTask?
    case FetchData(_, _) => task.FetchTask? || task.FetchFirstTask? || task.StoreTask?
    case SearchData(_) => task.SearchTask?
    case SortData(_) => task.SortTask?
    case ThreadData(_) => task.ThreadTask?
    case ListData(_) => task.ListTask?
    case ExpungeData(_) => task.ExpungeTask?
    case IdData(_) => task.IdTask?
    case EnabledData(_) => task.EnableTask?
    case OtherData(_) => false
  }

  /** Whether `task` takes `msg`. The answer depends on the variant of the task alone,
      never on what it has collected so far. */
  predicate Wants(task: Task, msg: Msg) {
    match msg
    case DataMsg(data) => WantsData(task, data)
    case UntaggedMsg(body) =>
      || (task.CapabilityTask? && IsCapabilityCode(body.code))
      || (task.SelectTask? && body.kind == OK && IsSelectCode(body.code))
    case ByeMsg(_) => task.LogoutTask?
    case ContinuationMsg(_) => false
    case ChallengeMsg(_) => task.AuthenticateTask?
  }

  function SetOf<T>(s: seq<T>): set<T> {
    set x | x in s
  }

  /** `fetched` with `items` added to what is known about message `num`. */
  function Merge(fetched: map<nat, set<Item>>, num: nat, items: Items): map<nat, set<Item>> {
    fetched[num := (if num in fetched then fetched[num] else {}) + SetOf(items)]
  }

  function SelectCode(selected: SelectData, code: Code): SelectData {
    match code
    case UnseenCode(unseen) => selected.(unseen := Some(unseen))
    case PermanentFlagsCode(flags) => selected.(permanentFlags := Some(flags))
    case UidNextCode(uid) => selected.(uidNext := Some(uid))
    case UidValidityCode(uid) => selected.(uidValidity := Some(uid))
    case HighestModSeqCode(modseq) => selected.(highestModSeq := Some(modseq))
    case _ => selected
  }

  function AbsorbData(task: Task, data: Data): Task
    requires WantsData(task, data)
  {
    match data
    case CapabilityData(caps) =>
      if task.CapabilityTask? then task.(scratch := Some(caps))
      else if task.LoginTask? then task.(loginCaps := Some(caps))
      else task.(authCaps := Some(caps))
    case FlagsData(flags) => task.(selected := task.selected.(flags := Some(flags)))
    case ExistsData(count) =>
      if task.ExistsTask? then task.(count := Some(count))
      else task.(selected := task.selected.(exists_ := Some(count)))
    case RecentData(count) => task.(selected := task.selected.(recent := Some(count)))
    case FetchData(num, items) =>
      if task.FetchTask? then task.(fetched := Merge(task.fetched, num, items))
      else if task.FetchFirstTask? then task.(first := Some(items))
      else task.(stored := task.stored[num := items])
    case SearchData(ids) => task.(ids := ids)
    case SortData(ids) => task.(order := Some(ids))
    case ThreadData(threads) => task.(threads := Some(threads))
    case ListData(row) => task.(rows := task.rows + [row])
    case ExpungeData(num) => task.(expunged := task.expunged + [num])
    case IdData(parameters) => task.(server := parameters)
    case EnabledData(enabled) => task.(enabled := Some(enabled))
  }

  /** The state of a task after it took `msg`. */
  function Absorb(task: Task, msg: Msg): Task
    requires Wants(task, msg)
  {
    match msg
    case DataMsg(data) => AbsorbData(task, data)
    case UntaggedMsg(body) =>
      if task.CapabilityTask? then task.(scratch := Some(body.code.value.caps))
      else task.(selected := SelectCode(task.selected, body.code.value))
    case ByeMsg(_) => task.(gotBye := true)
    case ContinuationMsg(_) => task
    case ChallengeMsg(_) => if task.ir then task else task.(line := None)
  }

  function Offer(task: Task, msg: Msg): Task {
    if Wants(task, msg) then Absorb(task, msg) else task
  }

  /** A task running alone: its state after being offered `msgs` in order. */
  function Fold(task: Task, msgs: seq<Msg>): Task {
    if msgs == [] then task
    else Offer(Fold(task, msgs[..|msgs| - 1]), msgs[|msgs| - 1])
  }

  /** How a mechanism answers a challenge it cannot serve. */
  function Refusal(mechanism: AuthMechanism): AuthenticateData {
    if mechanism == XOAuth2 then ContinueWith([]) else CancelExchange
  }

  /** The answer of a task to a SASL challenge; None hands the challenge back. */
  function Reply(task: Task): Option<AuthenticateData> {
    if !task.AuthenticateTask? then None
    else if task.ir || task.line.None? then Some(Refusal(task.mechanism))
    else Some(ContinueWith(task.line.value))
  }

  lemma DeclinedChallengeChangesNothing(task: Task, continuation: Continuation)
    ensures Reply(task).None? <==> !Wants(task, ChallengeMsg(continuation))
    ensures Reply(task).None? ==> Offer(task, ChallengeMsg(continuation)) == task
  {
  }

  function Judge<T>(body: StatusBody, success: Result<T, TaskError>): Result<T, TaskError> {
    match body.kind
    case OK => success
    case NO => Err(UnexpectedNo(body))
    case BAD => Err(UnexpectedBad(body))
  }

  function CodeOr(body: StatusBody, found: Option<Caps>): Option<Caps> {
    if IsCapabilityCode(body.code) then Some(body.code.value.caps) else found
  }

  /** The output of a task whose command completed with `body`. */
  function Finish(task: Task, body: StatusBody): Output {
    match task
    case PlainTask(_) => UnitOut(Judge(body, Ok(())))
    case AppendUidTask(_) =>
      AppendUidOut(Judge(body, Ok(
        if body.code.Some? && body.code.value.AppendUidCode?
        then Some((body.code.value.uid, body.code.value.validity)) else None)))
    case ExistsTask(_, count) => CountOut(Judge(body, Ok(count)))
    case AuthenticateTask(_, _, _, found) => MaybeCapsOut(Judge(body, Ok(CodeOr(body, found))))
    case CapabilityTask(found) =>
      CapsOut(Judge(body,
        if found.Some? then Ok(found.value)
        else if IsCapabilityCode(body.code) then Ok(body.code.value.caps)
        else Err(MissingData("CAPABILITY"))))
    case LoginTask(_, _, found) => MaybeCapsOut(Judge(body, Ok(CodeOr(body, found))))
    case LogoutTask(gotBye) => UnitOut(Judge(body, if gotBye then Ok(()) else Err(MissingData("LOGOUT: BYE"))))
    case SelectTask(_, _, _, selected) => SelectOut(Judge(body, Ok(selected)))
    case FetchTask(_, fetched) => FetchOut(Judge(body, Ok(fetched)))
    case FetchFirstTask(_, first) =>
      FetchFirstOut(Judge(body, if first.Some? then Ok(first.value) else Err(MissingData("FETCH: items"))))
    case StoreTask(_, stored) => StoreOut(Judge(body, Ok(stored)))
    case SearchTask(_, ids) => IdsOut(Judge(body, Ok(ids)))
    case SortTask(_, order) =>
      IdsOut(Judge(body, if order.Some? then Ok(order.value) else Err(MissingData("SORT"))))
    case ThreadTask(_, threads) =>
      ThreadsOut(Judge(body, if threads.Some? then Ok(threads.value) else Err(MissingData("SORT"))))
    case ListTask(_, rows) => RowsOut(Judge(body, Ok(rows)))
    case ExpungeTask(expunged) => IdsOut(Judge(body, Ok(expunged)))
    case IdTask(_, server) => IdOut(Judge(body, Ok(server)))
    case EnableTask(_, enabled) => EnableOut(Judge(body, Ok(enabled)))
  }

  // ----- A boxed task, updated in place -----------------------------------------

  class TaskBox {
    var task: Task

    constructor (task: Task)
      ensures this.task == task
    {
      this.task := task;
    }

    /** The three tasks that read FETCH responses. */
    method ProcessItems(data: Data) returns (back: Option<Data>)
      requires task.FetchTask? || task.FetchFirstTask? || task.StoreTask?
      modifies this
      ensures task == Offer(old(task), DataMsg(data))
      ensures back == if Wants(old(task), DataMsg(data)) then None else Some(data)
    {
      if !data.FetchData? {
        return Some(data);
      }
      back := None;
      match task {
        case FetchTask(_, fetched) =>
          if data.num in fetched {
            task := task.(fetched := fetched[data.num := fetched[data.num] + SetOf(data.items)]);
          } else {
            assert {} + SetOf(data.items) == SetOf(data.items);
            task := task.(fetched := fetched[data.num := SetOf(data.items)]);
          }
        case FetchFirstTask(_, _) => task := task.(first := Some(data.items));
        case StoreTask(_, stored) => task := task.(stored := stored[data.num := data.items]);
      }
    }

    /** The three tasks that read capability lists. */
    method ProcessCapabilities(data: Data) returns (back: Option<Data>)
      requires task.AuthenticateTask? || task.CapabilityTask? || task.LoginTask?
      modifies this
      ensures task == Offer(old(task), DataMsg(data))
      ensures back == if Wants(old(task), DataMsg(data)) then None else Some(data)
    {
      if !data.CapabilityData? {
        return Some(data);
      }
      back := None;
      match task {
        case AuthenticateTask(_, _, _, _) => task := task.(authCaps := Some(data.caps));
        case CapabilityTask(_) => task := task.(scratch := Some(data.caps));
        case LoginTask(_, _, _) => task := task.(loginCaps := Some(data.caps));
      }
    }

    method ProcessMailboxData(data: Data) returns (back: Option<Data>)
      requires task.SelectTask?
      modifies this
      ensures task == Offer(old(task), DataMsg(data))
      ensures back == if Wants(old(task), DataMsg(data)) then None else Some(data)
    {
      back := None;
      var selected := task.selected;
      match data {
        case FlagsData(flags) => task := task.(selected := selected.(flags := Some(flags)));
        case ExistsData(count) => task := task.(selected := selected.(exists_ := Some(count)));
        case RecentData(count) => task := task.(selected := selected.(recent := Some(count)));
        case _ => back := Some(data);
      }
    }

    /** The tasks that read one kind of data of their own, and those that read none. */
    method ProcessReport(data: Data) returns (back: Option<Data>)
      requires !task.FetchTask? && !task.FetchFirstTask? && !task.StoreTask? && !task.SelectTask?
      requires !task.AuthenticateTask? && !task.CapabilityTask? && !task.LoginTask?
      modifies this
      ensures task == Offer(old(task), DataMsg(data))
      ensures back == if Wants(old(task), DataMsg(data)) then None else Some(data)
    {
      back := None;
      match task {
        case ExistsTask(_, _) =>
          if data.ExistsData? { task := task.(count := Some(data.count)); } else { back := Some(data); }
        case SearchTask(_, _) =>
          if data.SearchData? { task := task.(ids := data.ids); } else { back := Some(data); }
        case SortTask(_, _) =>
          if data.SortData? { task := task.(order := Some(data.ids)); } else { back := Some(data); }
        case ThreadTask(_, _) =>
          if data.ThreadData? { task := task.(threads := Some(data.threads)); } else { back := Some(data); }
        case ListTask(_, rows) =>
          if data.ListData? { task := task.(rows := rows + [data.row]); } else { back := Some(data); }
        case ExpungeTask(expunged) =>
          if data.ExpungeData? { task := task.(expunged := expunged + [data.num]); } else { back := Some(data); }
        case IdTask(_, _) =>
          if data.IdData? { task := task.(server := data.parameters); } else { back := Some(data); }
        case EnableTask(_, _) =>
          if data.EnabledData? { task := task.(enabled := Some(data.enabled)); } else { back := Some(data); }
        case _ => back := Some(data);
      }
    }

    method ProcessData(data: Data) returns (back: Option<Data>)
      modifies this
      ensures task == Offer(old(task), DataMsg(data))
      ensures back == if Wants(old(task), DataMsg(data)) then None else Some(data)
    {
      if task.FetchTask? || task.FetchFirstTask? || task.StoreTask? {
        back := ProcessItems(data);
      } else if task.AuthenticateTask? || task.CapabilityTask? || task.LoginTask? {
        back := ProcessCapabilities(data);
      } else if task.SelectTask? {
        back := ProcessMailboxData(data);
      } else {
        back := ProcessReport(data);
      }
    }

    method ProcessUntagged(body: StatusBody) returns (back: Option<StatusBody>)
      modifies this
      ensures task == Offer(old(task), UntaggedMsg(body))
      ensures back == if Wants(old(task), UntaggedMsg(body)) then None else Some(body)
    {
      back := Some(body);
      match task {
        case CapabilityTask(_) =>
          if body.code.Some? && body.code.value.CapabilityCode? {
            task := task.(scratch := Some(body.code.value.caps));
            back := None;
          }
        case SelectTask(_, _, _, selected) =>
          if body.kind == OK && body.code.Some? {
            back := None;
            match body.code.value {
              case UnseenCode(unseen) => task := task.(selected := selected.(unseen := Some(unseen)));
              case PermanentFlagsCode(flags) => task := task.(selected := selected.(permanentFlags := Some(flags)));
              case UidNextCode(uid) => task := task.(selected := selected.(uidNext := Some(uid)));
              case UidValidityCode(uid) => task := task.(selected := selected.(uidValidity := Some(uid)));
              case HighestModSeqCode(modseq) => task := task.(selected := selected.(highestModSeq := Some(modseq)));
              case _ => back := Some(body);
            }
          }
        case _ =>
      }
    }

    /** No task of the library takes a plain continuation. */
    method ProcessContinuation(continuation: Continuation) returns (back: Option<Continuation>)
      ensures task == Offer(task, ContinuationMsg(continuation))
      ensures back == Some(continuation)
    {
      back := Some(continuation);
    }

    method ProcessChallenge(continuation: Continuation) returns (answer: Result<AuthenticateData, Continuation>)
      modifies this
      ensures task == Offer(old(task), ChallengeMsg(continuation))
      ensures answer == if Reply(old(task)).Some? then Ok(Reply(old(task)).value) else Err(continuation)
      ensures old(task).AuthenticateTask? ==>
                answer == Ok(
                  if !old(task).ir && old(task).line.Some? then ContinueWith(old(task).line.value)
                  else if old(task).mechanism == XOAuth2 then ContinueWith([]) else CancelExchange)
    {
      match task {
        case AuthenticateTask(mechanism, line, ir, _) =>
          if ir {
            answer := Ok(Refusal(mechanism));
          } else {
            task := task.(line := None);
            answer := Ok(if line.Some? then ContinueWith(line.value) else Refusal(mechanism));
          }
        case _ => answer := Err(continuation);
      }
    }

    method ProcessBye(bye: Bye) returns (back: Option<Bye>)
      modifies this
      ensures task == Offer(old(task), ByeMsg(bye))
      ensures back == if Wants(old(task), ByeMsg(bye)) then None else Some(bye)
    {
      if task.LogoutTask? {
        task := task.(gotBye := true);
        back := None;
      } else {
        back := Some(bye);
      }
    }

    /** Offers any routed response: the closure handed to `trickle_down`. */
    method Process(msg: Msg) returns (back: Option<Msg>)
      modifies this
      ensures task == Offer(old(task), msg)
      ensures back == if Wants(old(task), msg) then None else Some(msg)
    {
      match msg {
        case DataMsg(data) =>
          var b := ProcessData(data);
          back := if b.Some? then Some(DataMsg(b.value)) else None;
        case UntaggedMsg(body) =>
          var b := ProcessUntagged(body);
          back := if b.Some? then Some(UntaggedMsg(b.value)) else None;
        case ByeMsg(bye) =>
          var b := ProcessBye(bye);
          back := if b.Some? then Some(ByeMsg(b.value)) else None;
        case ContinuationMsg(continuation) =>
          var b := ProcessContinuation(continuation);
          back := if b.Some? then Some(ContinuationMsg(b.value)) else None;
        case ChallengeMsg(continuation) =>
          var b := ProcessChallenge(continuation);
          back := if b.Ok? then None else Some(ChallengeMsg(b.error));
      }
    }
  }
}
