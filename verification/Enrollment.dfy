/** Device enrollment: requests and codes that each turn into at most one node credential.
    Every operation commits its record and its audit row together or not at all. */
module Enrollment {
  import opened Common

  const LIFETIME: int := 600_000_000_000
  const SECRET_LENGTH := 64
  const OPEN_PER_SOURCE := 5
  const OPEN_IN_TOTAL := 256
  const ENROLL := "client.enroll"

  datatype Progress = Pending | Approved | Rejected | Consumed

  datatype Request = Request(
    name: string, platform: string, ip: string, progress: Progress, createdAt: int, expiresAt: int, secret: string)

  datatype Code = Code(name: string, expiresAt: int, used: bool)

  datatype Node = Node(name: string, platform: string, createdAt: int, token: string, revoked: bool)

  datatype Row = Row(action: string, subject: string)

  /** The enrollment part of the store. Digests are injective, so records are keyed by and compared
      through the secrets themselves. */
  datatype State = State(
    requests: map<string, Request>, codes: map<string, Code>, nodes: map<string, Node>, blocks: set<string>,
    audits: seq<Row>)

  datatype Error =
    | InvalidDevice | UnknownSource | SourceBlocked | TooManyRequests | NoSuchRequest | AlreadyDecided
    | UnknownDecision | NameTooLong | InvalidCode | NoSuchNode | CommitFailed

  datatype Verdict = Approve | Reject | BlockSource | OtherVerdict

  predicate KnownPlatform(p: string) {
    p == "linux" || p == "darwin" || p == "windows"
  }

  predicate Unexpired(s: State, now: int, id: string) {
    id in s.requests && now < s.requests[id].expiresAt
  }

  function Open(s: State, now: int): set<string> {
    set id | id in s.requests && Unexpired(s, now, id)
  }

  function OpenFrom(s: State, now: int, ip: string): set<string> {
    set id | id in s.requests && Unexpired(s, now, id) && s.requests[id].ip == ip
  }

  function Logged(s: State, action: string, subject: string): State {
    s.(audits := s.audits + [Row(action, subject)])
  }

  // ---------------------------------------------------------------- operations

  function CreateError(s: State, now: int, name: string, platform: string, ip: string, parses: bool): Option<Error> {
    if |name| == 0 || |name| > 120 || !KnownPlatform(platform) then Some(InvalidDevice)
    else if !parses then Some(UnknownSource)
    else if ip in s.blocks then Some(SourceBlocked)
    else if |OpenFrom(s, now, ip)| >= OPEN_PER_SOURCE || |Open(s, now)| >= OPEN_IN_TOTAL then Some(TooManyRequests)
    else None
  }

  function CreateAfter(s: State, now: int, id: string, secret: string, name: string, platform: string,
                       ip: string): State {
    Logged(s.(requests := s.requests[id := Request(name, platform, ip, Pending, now, now + LIFETIME, secret)]),
           "client.request", id)
  }

  function DecideError(s: State, now: int, id: string, v: Verdict): Option<Error> {
    if id !in s.requests then Some(NoSuchRequest)
    else if s.requests[id].progress != Pending || !Unexpired(s, now, id) then Some(AlreadyDecided)
    else if v == Approve && s.requests[id].ip in s.blocks then Some(SourceBlocked)
    else if v == OtherVerdict then Some(UnknownDecision)
    else None
  }

  function DecideAction(v: Verdict): string {
    match v
    case Approve => "client.request.approve"
    case Reject => "client.request.reject"
    case _ => "client.request.block_ip"
  }

  function CommitsOf(v: Verdict): nat {
    if v == BlockSource then 2 else 1
  }

  /** Blocking commits the block first and the request second; `commits` says how many succeed. */
  function DecideAfter(s: State, id: string, v: Verdict, commits: nat): State
    requires id in s.requests
  {
    var r := s.requests[id];
    var decided := r.(progress := if v == Approve then Approved else Rejected);
    var s1 :=
      if v == BlockSource && commits > 0 then Logged(s.(blocks := s.blocks + {r.ip}), "client.ip.block", r.ip) else s;
    if commits >= CommitsOf(v)
    then Logged(s1.(requests := s.requests[id := decided]), DecideAction(v), id)
    else s1
  }

  datatype Answer = BadSecret | Blocked | Expired | Waiting(progress: Progress) | Grant | NotIssued

  function PollAnswer(s: State, now: int, id: string, secret: string, ip: string): Answer {
    if |secret| != SECRET_LENGTH || id !in s.requests || s.requests[id].secret != secret then BadSecret
    else if ip in s.blocks || s.requests[id].ip in s.blocks then Blocked
    else if !Unexpired(s, now, id) then Expired
    else if s.requests[id].progress != Approved then Waiting(s.requests[id].progress)
    else Grant
  }

  /** Consumption, credential and audit row in one commit. */
  function Issued(s: State, now: int, nodeId: string, token: string, name: string, platform: string): State {
    Logged(s.(nodes := s.nodes[nodeId := Node(name, platform, now, token, false)]), ENROLL, nodeId)
  }

  function Granted(s: State, now: int, id: string, nodeId: string, token: string): State
    requires id in s.requests
  {
    var r := s.requests[id];
    Issued(s.(requests := s.requests[id := r.(progress := Consumed)]), now, nodeId, token, r.name, r.platform)
  }

  function NewCodeAfter(s: State, now: int, code: string, name: string): State {
    Logged(s.(codes := s.codes[code := Code(name, now + LIFETIME, false)]), "client.enrollment.create", code)
  }

  function EnrollError(s: State, now: int, code: string, platform: string): Option<Error> {
    if |code| != SECRET_LENGTH || !KnownPlatform(platform) then Some(InvalidCode)
    else if code !in s.codes || s.codes[code].used || now >= s.codes[code].expiresAt then Some(InvalidCode)
    else None
  }

  function Enrolled(s: State, now: int, code: string, platform: string, nodeId: string, token: string): State
    requires code in s.codes
  {
    var c := s.codes[code];
    Issued(s.(codes := s.codes[code := c.(used := true)]), now, nodeId, token, c.name, platform)
  }

  function RevokeAfter(s: State, id: string): State
    requires id in s.nodes
  {
    Logged(s.(nodes := s.nodes[id := s.nodes[id].(revoked := true)]), "client.revoke", id)
  }

  function UnblockAfter(s: State, ip: string): State {
    Logged(s.(blocks := s.blocks - {ip}), "client.ip.unblock", ip)
  }

  predicate AuthenticatesAs(s: State, token: string, id: string) {
    |token| == SECRET_LENGTH && id in s.nodes && s.nodes[id].token == token && !s.nodes[id].revoked
  }

  predicate Authenticates(s: State, token: string) {
    exists id :: id in s.nodes && AuthenticatesAs(s, token, id)
  }

  // ---------------------------------------------------------------- steps and runs

  datatype Op =
    | Create(id: string, secret: string, name: string, platform: string, ip: string, parses: bool)
    | Decide(id: string, verdict: Verdict)
    | Poll(id: string, secret: string, ip: string, nodeId: string, token: string)
    | NewCode(code: string, name: string)
    | Enroll(code: string, platform: string, nodeId: string, token: string)
    | Revoke(id: string)
    | Unblock(ip: string)

  /** One call: the clock it reads, and how many of its commits succeed. */
  datatype Step = Step(now: int, op: Op, commits: nat)

  predicate FreshToken(s: State, nodeId: string, token: string) {
    nodeId !in s.nodes && |token| == SECRET_LENGTH && forall n :: n in s.nodes ==> s.nodes[n].token != token
  }

  /** Generated ids and secrets have never been used before. */
  predicate FreshIds(s: State, op: Op) {
    match op
    case Create(id, secret, _, _, _, _) => id !in s.requests
    case Poll(_, _, _, nodeId, token) => FreshToken(s, nodeId, token)
    case NewCode(code, _) => code !in s.codes
    case Enroll(_, _, nodeId, token) => FreshToken(s, nodeId, token)
    case _ => true
  }

  /** Where a step takes its credential from, if it issues one. */
  datatype Source = FromRequest(id: string) | FromCode(code: string)

  function IssueOf(s: State, step: Step): Option<Source> {
    if step.commits == 0 then None
    else match step.op
      case Poll(id, secret, ip, _, _) =>
        if PollAnswer(s, step.now, id, secret, ip) == Grant then Some(FromRequest(id)) else None
      case Enroll(code, platform, _, _) =>
        if EnrollError(s, step.now, code, platform) == None then Some(FromCode(code)) else None
      case _ => None
  }

  function Next(s: State, step: Step): State {
    if step.commits == 0 then s
    else match step.op
      case Create(id, secret, name, platform, ip, parses) =>
        if CreateError(s, step.now, name, platform, ip, parses) == None
        then CreateAfter(s, step.now, id, secret, name, platform, ip)
        else s
      case Decide(id, v) => if DecideError(s, step.now, id, v) == None then DecideAfter(s, id, v, step.commits) else s
      case Poll(id, secret, ip, nodeId, token) =>
        if PollAnswer(s, step.now, id, secret, ip) == Grant then Granted(s, step.now, id, nodeId, token) else s
      case NewCode(code, name) => if |name| <= 120 then NewCodeAfter(s, step.now, code, name) else s
      case Enroll(code, platform, nodeId, token) =>
        if EnrollError(s, step.now, code, platform) == None
        then Enrolled(s, step.now, code, platform, nodeId, token)
        else s
      case Revoke(id) => if id in s.nodes then RevokeAfter(s, id) else s
      case Unblock(ip) => UnblockAfter(s, ip)
  }

  const EMPTY := State(map[], map[], map[], {}, [])

  predicate IsStep(s: State, step: Step, t: State) {
    FreshIds(s, step.op) && t == Next(s, step)
  }

  predicate IsRun(states: seq<State>, steps: seq<Step>) {
    && |states| == |steps| + 1 && states[0] == EMPTY
    && forall i :: 0 <= i < |steps| ==> IsStep(states[i], steps[i], states[i + 1])
  }

  // ---------------------------------------------------------------- conservation

  function ConsumedRequests(s: State): set<string> {
    set id | id in s.requests && s.requests[id].progress == Consumed
  }

  function UsedCodes(s: State): set<string> {
    set c | c in s.codes && s.codes[c].used
  }

  predicate Conserved(s: State) {
    |s.nodes| == |ConsumedRequests(s)| + |UsedCodes(s)|
  }

  predicate UniqueTokens(s: State) {
    forall m, n :: m in s.nodes && n in s.nodes && s.nodes[m].token == s.nodes[n].token ==> m == n
  }

  /** The audit trail's enrollments, in order. */
  function EnrolledNodes(rows: seq<Row>): seq<string> {
    if rows == [] then []
    else
      EnrolledNodes(rows[..|rows| - 1]) +
      (if rows[|rows| - 1].action == ENROLL then [rows[|rows| - 1].subject] else [])
  }

  /** Every node was enrolled by exactly one audit row, and every such row is a node. */
  predicate TrailAgrees(s: State) {
    && Distinct(EnrolledNodes(s.audits))
    && (forall id :: id in EnrolledNodes(s.audits) ==> id in s.nodes)
    && (forall id :: id in s.nodes ==> id in EnrolledNodes(s.audits))
  }

  predicate Inv(s: State) {
    Conserved(s) && UniqueTokens(s) && TrailAgrees(s)
  }

  lemma LoggedTrail(s: State, action: string, subject: string)
    ensures EnrolledNodes(Logged(s, action, subject).audits)
            == EnrolledNodes(s.audits) + (if action == ENROLL then [subject] else [])
  {
    var rows := Logged(s, action, subject).audits;
    assert rows[..|rows| - 1] == s.audits;
  }

  lemma SameConsumed(s: State, t: State)
    requires forall id ::
               id in s.requests && s.requests[id].progress == Consumed <==>
               id in t.requests && t.requests[id].progress == Consumed
    ensures ConsumedRequests(t) == ConsumedRequests(s)
  {
  }

  lemma SameUsed(s: State, t: State)
    requires forall c :: c in s.codes && s.codes[c].used <==> c in t.codes && t.codes[c].used
    ensures UsedCodes(t) == UsedCodes(s)
  {
  }

  lemma IssuedTrail(u: State, now: int, nodeId: string, token: string, name: string, platform: string)
    requires TrailAgrees(u) && nodeId !in u.nodes
    ensures TrailAgrees(Issued(u, now, nodeId, token, name, platform))
  {
    var node := Node(name, platform, now, token, false);
    LoggedTrail(u.(nodes := u.nodes[nodeId := node]), ENROLL, nodeId);
    hide EnrolledNodes;
  }

  lemma IssuedTokens(u: State, now: int, nodeId: string, token: string, name: string, platform: string)
    requires UniqueTokens(u) && FreshToken(u, nodeId, token)
    ensures UniqueTokens(Issued(u, now, nodeId, token, name, platform))
  {
  }

  lemma IssuedCounts(u: State, now: int, nodeId: string, token: string, name: string, platform: string)
    requires nodeId !in u.nodes
    ensures var t := Issued(u, now, nodeId, token, name, platform);
            |t.nodes| == |u.nodes| + 1 && ConsumedRequests(t) == ConsumedRequests(u) && UsedCodes(t) == UsedCodes(u)
  {
    var t := Issued(u, now, nodeId, token, name, platform);
    assert t.nodes.Keys == u.nodes.Keys + {nodeId};
    SameConsumed(u, t);
    SameUsed(u, t);
  }

  /** One more source spent and one fresh node: the books still balance. */
  lemma IssueKeepsInv(s: State, u: State, now: int, nodeId: string, token: string, name: string, platform: string)
    requires Inv(s) && FreshToken(s, nodeId, token) && u.nodes == s.nodes && u.audits == s.audits
    requires |ConsumedRequests(u)| + |UsedCodes(u)| == |ConsumedRequests(s)| + |UsedCodes(s)| + 1
    ensures Inv(Issued(u, now, nodeId, token, name, platform))
  {
    assert TrailAgrees(u) && UniqueTokens(u) && FreshToken(u, nodeId, token) && nodeId !in u.nodes;
    hide TrailAgrees, UniqueTokens, FreshToken, ConsumedRequests, UsedCodes;
    IssuedTrail(u, now, nodeId, token, name, platform);
    IssuedTokens(u, now, nodeId, token, name, platform);
    IssuedCounts(u, now, nodeId, token, name, platform);
  }

  lemma OneMoreConsumed(s: State, u: State, id: string)
    requires id in s.requests && s.requests[id].progress != Consumed
             && u.requests == s.requests[id := s.requests[id].(progress := Consumed)]
    ensures |ConsumedRequests(u)| == |ConsumedRequests(s)| + 1
  {
    assert ConsumedRequests(u) == ConsumedRequests(s) + {id};
  }

  lemma OneMoreUsed(s: State, u: State, code: string)
    requires code in s.codes && !s.codes[code].used && u.codes == s.codes[code := s.codes[code].(used := true)]
    ensures |UsedCodes(u)| == |UsedCodes(s)| + 1
  {
    assert UsedCodes(u) == UsedCodes(s) + {code};
  }

  lemma GrantKeepsInv(s: State, now: int, id: string, nodeId: string, token: string)
    requires Inv(s) && FreshToken(s, nodeId, token) && id in s.requests && s.requests[id].progress == Approved
    ensures Inv(Granted(s, now, id, nodeId, token))
  {
    var r := s.requests[id];
    var u := s.(requests := s.requests[id := r.(progress := Consumed)]);
    OneMoreConsumed(s, u, id);
    SameUsed(s, u);
    hide Inv, FreshToken, ConsumedRequests, UsedCodes;
    IssueKeepsInv(s, u, now, nodeId, token, r.name, r.platform);
  }

  lemma EnrollKeepsInv(s: State, now: int, code: string, platform: string, nodeId: string, token: string)
    requires Inv(s) && FreshToken(s, nodeId, token) && code in s.codes && !s.codes[code].used
    ensures Inv(Enrolled(s, now, code, platform, nodeId, token))
  {
    var c := s.codes[code];
    var u := s.(codes := s.codes[code := c.(used := true)]);
    OneMoreUsed(s, u, code);
    SameConsumed(s, u);
    hide Inv, FreshToken, ConsumedRequests, UsedCodes;
    IssueKeepsInv(s, u, now, nodeId, token, c.name, platform);
  }

  /** Steps that issue nothing: no node comes or goes, nothing is consumed or used. */
  lemma QuietKeepsInv(s: State, t: State)
    requires Inv(s) && t.nodes.Keys == s.nodes.Keys && EnrolledNodes(t.audits) == EnrolledNodes(s.audits)
    requires forall n :: n in s.nodes ==> t.nodes[n].token == s.nodes[n].token
    requires forall id ::
               id in s.requests && s.requests[id].progress == Consumed <==>
               id in t.requests && t.requests[id].progress == Consumed
    requires forall c :: c in s.codes && s.codes[c].used <==> c in t.codes && t.codes[c].used
    ensures Inv(t)
  {
    SameConsumed(s, t);
    SameUsed(s, t);
    assert |t.nodes| == |t.nodes.Keys| && |s.nodes| == |s.nodes.Keys|;
  }

  lemma DecideTrail(s: State, id: string, v: Verdict, commits: nat)
    requires id in s.requests
    ensures EnrolledNodes(DecideAfter(s, id, v, commits).audits) == EnrolledNodes(s.audits)
  {
    var r := s.requests[id];
    var s1 :=
      if v == BlockSource && commits > 0 then Logged(s.(blocks := s.blocks + {r.ip}), "client.ip.block", r.ip) else s;
    LoggedTrail(s.(blocks := s.blocks + {r.ip}), "client.ip.block", r.ip);
    LoggedTrail(s1, DecideAction(v), id);
  }

  lemma QuietNodes(s: State, step: Step)
    requires IssueOf(s, step) == None
    ensures Next(s, step).nodes.Keys == s.nodes.Keys
    ensures forall n :: n in s.nodes ==> Next(s, step).nodes[n].token == s.nodes[n].token
  {
    hide CreateError, DecideError, PollAnswer, EnrollError;
  }

  lemma QuietSources(s: State, step: Step)
    requires FreshIds(s, step.op) && IssueOf(s, step) == None
    ensures var t := Next(s, step);
            && (forall id ::
                  id in s.requests && s.requests[id].progress == Consumed <==>
                  id in t.requests && t.requests[id].progress == Consumed)
            && (forall c :: c in s.codes && s.codes[c].used <==> c in t.codes && t.codes[c].used)
  {
    hide CreateError, PollAnswer, EnrollError, FreshToken;
  }

  lemma QuietTrail(s: State, step: Step)
    requires IssueOf(s, step) == None
    ensures EnrolledNodes(Next(s, step).audits) == EnrolledNodes(s.audits)
  {
    hide CreateError, PollAnswer, EnrollError, EnrolledNodes, DecideAfter;
    match step.op
    case Create(id, _, _, _, _, _) => LoggedTrail(s, "client.request", id);
    case Decide(id, v) =>
      if DecideError(s, step.now, id, v) == None {
        DecideTrail(s, id, v, step.commits);
      }
    case NewCode(code, _) => LoggedTrail(s, "client.enrollment.create", code);
    case Revoke(id) => LoggedTrail(s, "client.revoke", id);
    case Unblock(ip) => LoggedTrail(s, "client.ip.unblock", ip);
    case _ =>
  }

  lemma StepKeepsInv(s: State, step: Step)
    requires Inv(s) && FreshIds(s, step.op)
    ensures Inv(Next(s, step))
  {
    if IssueOf(s, step) == None {
      QuietNodes(s, step);
      QuietSources(s, step);
      QuietTrail(s, step);
      hide *;
      QuietKeepsInv(s, Next(s, step));
    } else {
      hide Inv, FreshToken;
      match step.op
      case Poll(id, _, _, nodeId, token) => GrantKeepsInv(s, step.now, id, nodeId, token);
      case Enroll(code, platform, nodeId, token) => EnrollKeepsInv(s, step.now, code, platform, nodeId, token);
    }
  }

  /** In every state of every run the issued nodes are the consumed requests plus the used codes. */
  lemma {:induction false} CredentialsAreConserved(states: seq<State>, steps: seq<Step>, n: nat)
    requires IsRun(states, steps) && n < |states|
    ensures Inv(states[n])
  {
    if n > 0 {
      assert IsStep(states[n - 1], steps[n - 1], states[n]);
      assert FreshIds(states[n - 1], steps[n - 1].op) && states[n] == Next(states[n - 1], steps[n - 1]);
      CredentialsAreConserved(states, steps, n - 1);
      hide *;
      StepKeepsInv(states[n - 1], steps[n - 1]);
    }
  }

  // ---------------------------------------------------------------- what never changes

  /** How a request may change: nothing but its progress, and that only forwards. */
  predicate RequestEvolves(r: Request, q: Request) {
    && q == r.(progress := q.progress)
    && (r.progress == Approved ==> q.progress == Approved || q.progress == Consumed)
    && (r.progress == Rejected || r.progress == Consumed ==> q.progress == r.progress)
  }

  predicate RequestsEvolve(s: State, t: State) {
    forall id :: id in s.requests ==> id in t.requests && RequestEvolves(s.requests[id], t.requests[id])
  }

  predicate CodesEvolve(s: State, t: State) {
    forall c :: c in s.codes ==>
      && c in t.codes && t.codes[c] == s.codes[c].(used := t.codes[c].used)
      && (s.codes[c].used ==> t.codes[c].used)
  }

  predicate NodesEvolve(s: State, t: State) {
    forall n :: n in s.nodes ==>
      && n in t.nodes && t.nodes[n] == s.nodes[n].(revoked := t.nodes[n].revoked)
      && (s.nodes[n].revoked ==> t.nodes[n].revoked)
  }

  predicate Evolves(s: State, t: State) {
    RequestsEvolve(s, t) && CodesEvolve(s, t) && NodesEvolve(s, t)
  }

  lemma RequestsStep(s: State, step: Step)
    requires FreshIds(s, step.op)
    ensures RequestsEvolve(s, Next(s, step))
  {
    hide CreateError, EnrollError, FreshToken;
    match step.op
    case Decide(id, v) =>
    case _ =>
  }

  lemma CodesStep(s: State, step: Step)
    requires FreshIds(s, step.op)
    ensures CodesEvolve(s, Next(s, step))
  {
    hide CreateError, PollAnswer, DecideError, FreshToken;
    match step.op
    case Decide(id, v) =>
    case _ =>
  }

  lemma NodesStep(s: State, step: Step)
    requires FreshIds(s, step.op)
    ensures NodesEvolve(s, Next(s, step))
  {
    hide CreateError, PollAnswer, DecideError, EnrollError;
    match step.op
    case Decide(id, v) =>
    case _ =>
  }

  lemma StepEvolves(s: State, step: Step)
    requires FreshIds(s, step.op)
    ensures Evolves(s, Next(s, step))
  {
    RequestsStep(s, step);
    CodesStep(s, step);
    NodesStep(s, step);
    hide Next, FreshIds, RequestsEvolve, CodesEvolve, NodesEvolve;
  }

  lemma {:induction false} RunEvolves(states: seq<State>, steps: seq<Step>, i: nat, j: nat)
    requires IsRun(states, steps) && i <= j < |states|
    ensures Evolves(states[i], states[j])
    decreases j
  {
    if i < j {
      assert IsStep(states[j - 1], steps[j - 1], states[j]);
      StepEvolves(states[j - 1], steps[j - 1]);
      RunEvolves(states, steps, i, j - 1);
      hide IsRun, Next, FreshIds, IsStep;
      assert Evolves(states[i], states[j - 1]) && Evolves(states[j - 1], states[j]);
    }
  }

  /** A request or code yields one credential at most. */
  lemma OneCredentialPerSource(states: seq<State>, steps: seq<Step>, i: nat, j: nat)
    requires IsRun(states, steps) && i < |steps| && j < |steps|
    requires IssueOf(states[i], steps[i]).Some? && IssueOf(states[i], steps[i]) == IssueOf(states[j], steps[j])
    ensures i == j
  {
    if i != j {
      var a, b := if i < j then i else j, if i < j then j else i;
      assert IsStep(states[a], steps[a], states[a + 1]);
      RunEvolves(states, steps, a + 1, b);
      hide IsRun;
      assert false;
    }
  }

  /** Once rejected, a request never yields a credential. */
  lemma RejectedNeverIssues(states: seq<State>, steps: seq<Step>, i: nat, j: nat, id: string)
    requires IsRun(states, steps) && i <= j < |steps|
    requires id in states[i].requests && states[i].requests[id].progress == Rejected
    ensures IssueOf(states[j], steps[j]) != Some(FromRequest(id))
  {
    RunEvolves(states, steps, i, j);
    hide IsRun;
  }

  /** A credential taken from a request was preceded by its approval, while the request was open,
      and is issued before the request expires. */
  lemma {:induction false} ApprovalPrecedesGrant(states: seq<State>, steps: seq<Step>, i: nat, id: string)
    returns (j: nat)
    requires IsRun(states, steps) && i < |states|
    requires id in states[i].requests
             && (states[i].requests[id].progress == Approved || states[i].requests[id].progress == Consumed)
    ensures j < i && steps[j].op == Decide(id, Approve) && Unexpired(states[j], steps[j].now, id)
  {
    assert i > 0 && IsStep(states[i - 1], steps[i - 1], states[i]);
    hide IsRun, CreateError, EnrollError, FreshToken;
    var s, step := states[i - 1], steps[i - 1];
    if id in s.requests && (s.requests[id].progress == Approved || s.requests[id].progress == Consumed) {
      j := ApprovalPrecedesGrant(states, steps, i - 1, id);
    } else {
      j := i - 1;
    }
  }

  lemma GrantIsApprovedAndInTime(states: seq<State>, steps: seq<Step>, i: nat, id: string) returns (j: nat)
    requires IsRun(states, steps) && i < |steps| && IssueOf(states[i], steps[i]) == Some(FromRequest(id))
    ensures j < i && steps[j].op == Decide(id, Approve) && Unexpired(states[j], steps[j].now, id)
    ensures Unexpired(states[i], steps[i].now, id)
  {
    j := ApprovalPrecedesGrant(states, steps, i, id);
  }

  // ---------------------------------------------------------------- who authenticates

  predicate RevokedBy(step: Step, node: string) {
    step.op == Revoke(node) && step.commits > 0
  }

  predicate IssuesNode(s: State, step: Step, node: string) {
    IssueOf(s, step).Some? && step.op.nodeId == node
  }

  lemma NodeAfter(s: State, step: Step, node: string)
    requires FreshIds(s, step.op)
    ensures var t := Next(s, step);
            && (node in t.nodes <==> node in s.nodes || IssuesNode(s, step, node))
            && (IssuesNode(s, step, node) ==>
                  && node !in s.nodes && t.nodes[node].token == step.op.token
                  && |step.op.token| == SECRET_LENGTH && !t.nodes[node].revoked)
            && (node in s.nodes ==>
                  t.nodes[node] == if RevokedBy(step, node) then s.nodes[node].(revoked := true) else s.nodes[node])
  {
    hide CreateError, PollAnswer, EnrollError;
    match step.op
    case Decide(id, v) =>
    case _ =>
  }

  /** Step i issued the token to the node, and no later step before n revoked it. */
  predicate LiveIssue(states: seq<State>, steps: seq<Step>, i: nat, n: nat, node: string, token: string)
    requires n <= |steps| <= |states|
  {
    && i < n && IssuesNode(states[i], steps[i], node) && steps[i].op.token == token
    && forall j :: i < j < n ==> !RevokedBy(steps[j], node)
  }

  lemma {:induction false} LiveIssueAuthenticates(states: seq<State>, steps: seq<Step>, i: nat, n: nat, node: string,
                                                  token: string)
    requires IsRun(states, steps) && n <= |steps| && LiveIssue(states, steps, i, n, node, token)
    ensures AuthenticatesAs(states[n], token, node)
  {
    assert IsStep(states[n - 1], steps[n - 1], states[n]);
    NodeAfter(states[n - 1], steps[n - 1], node);
    hide Next, FreshIds, IsRun, IssueOf;
    if i < n - 1 {
      LiveIssueAuthenticates(states, steps, i, n - 1, node, token);
    }
  }

  lemma {:induction false} AuthenticatedWasIssued(states: seq<State>, steps: seq<Step>, n: nat, node: string,
                                                  token: string) returns (i: nat)
    requires IsRun(states, steps) && n <= |steps| && AuthenticatesAs(states[n], token, node)
    ensures LiveIssue(states, steps, i, n, node, token)
  {
    assert n > 0 && IsStep(states[n - 1], steps[n - 1], states[n]);
    NodeAfter(states[n - 1], steps[n - 1], node);
    hide Next, FreshIds, IsRun, IssueOf;
    if IssuesNode(states[n - 1], steps[n - 1], node) {
      i := n - 1;
    } else {
      i := AuthenticatedWasIssued(states, steps, n - 1, node, token);
    }
  }

  /** A token authenticates exactly when some earlier step issued it and its node was not revoked since. */
  lemma AuthenticatesIffLive(states: seq<State>, steps: seq<Step>, n: nat, token: string, node: string)
    requires IsRun(states, steps) && n <= |steps|
    ensures AuthenticatesAs(states[n], token, node)
            <==> exists i: nat :: i < n && LiveIssue(states, steps, i, n, node, token)
  {
    assert |states| == |steps| + 1;
    hide IsRun, AuthenticatesAs;
    if AuthenticatesAs(states[n], token, node) {
      var i := AuthenticatedWasIssued(states, steps, n, node, token);
    }
    if i: nat :| i < n && LiveIssue(states, steps, i, n, node, token) {
      LiveIssueAuthenticates(states, steps, i, n, node, token);
    }
  }

  /** A revoked node's token never authenticates again, under any node. */
  lemma RevokedStaysOut(states: seq<State>, steps: seq<Step>, i: nat, n: nat, node: string)
    requires IsRun(states, steps) && i <= n < |states|
    requires node in states[i].nodes && states[i].nodes[node].revoked
    ensures !Authenticates(states[n], states[i].nodes[node].token)
  {
    RunEvolves(states, steps, i, n);
    CredentialsAreConserved(states, steps, n);
    hide IsRun, Conserved, TrailAgrees, RequestsEvolve, CodesEvolve;
  }

  // ---------------------------------------------------------------- what issues a credential, and which

  /** A request answers its poll with a credential exactly under these conditions. */
  lemma PollIssuesIff(s: State, step: Step)
    requires step.op.Poll?
    ensures IssueOf(s, step) == Some(FromRequest(step.op.id)) <==>
              && step.commits > 0 && step.op.id in s.requests && |step.op.secret| == 64
              && var r := s.requests[step.op.id];
                 && r.secret == step.op.secret && r.progress == Approved && step.now < r.expiresAt
                 && step.op.ip !in s.blocks && r.ip !in s.blocks
    ensures IssueOf(s, step) == None || IssueOf(s, step) == Some(FromRequest(step.op.id))
  {
  }

  /** A code is exchanged for a credential exactly under these conditions. */
  lemma EnrollIssuesIff(s: State, step: Step)
    requires step.op.Enroll?
    ensures IssueOf(s, step) == Some(FromCode(step.op.code)) <==>
              && step.commits > 0 && |step.op.code| == 64 && step.op.platform in {"linux", "darwin", "windows"}
              && step.op.code in s.codes && !s.codes[step.op.code].used && step.now < s.codes[step.op.code].expiresAt
    ensures IssueOf(s, step) == None || IssueOf(s, step) == Some(FromCode(step.op.code))
  {
  }

  /** A request is opened exactly under these conditions, and is then open for ten minutes. */
  lemma RequestOpensIff(s: State, step: Step)
    requires step.op.Create? && step.op.id !in s.requests
    ensures var t, op := Next(s, step), step.op;
            && (op.id in t.requests <==>
                  && step.commits > 0 && 1 <= |op.name| <= 120 && op.platform in {"linux", "darwin", "windows"}
                  && op.parses && op.ip !in s.blocks && |OpenFrom(s, step.now, op.ip)| < 5 && |Open(s, step.now)| < 256)
            && (op.id in t.requests ==>
                  t.requests[op.id] == Request(op.name, op.platform, op.ip, Pending, step.now,
                                               step.now + 600_000_000_000, op.secret))
  {
    hide Open, OpenFrom;
  }

  /** What a committed decision does to an open, undecided request: an approval needs an unblocked source,
      and blocking the source also rejects. */
  lemma DecisionTakesEffect(s: State, step: Step)
    requires step.op.Decide? && step.op.id in s.requests && s.requests[step.op.id].progress == Pending
    requires step.commits >= 2
    ensures var t, id := Next(s, step), step.op.id;
            var r, v := s.requests[id], step.op.verdict;
            && id in t.requests
            && (step.now >= r.expiresAt ==> t == s)
            && (step.now < r.expiresAt ==>
                  t.requests[id].progress == match v
                    case Approve => if r.ip in s.blocks then Pending else Approved
                    case Reject => Rejected
                    case BlockSource => Rejected
                    case OtherVerdict => Pending)
            && (t.blocks == if step.now < r.expiresAt && v == BlockSource then s.blocks + {r.ip} else s.blocks)
  {
  }

  /** The credential carries the name and platform of its source, which is spent with it. */
  lemma IssuedCredential(s: State, step: Step)
    requires IssueOf(s, step).Some?
    ensures step.op.Poll? || step.op.Enroll?
    ensures var t := Next(s, step);
            && step.op.nodeId in t.nodes
            && match IssueOf(s, step).value
               case FromRequest(id) =>
                 && id in s.requests && id in t.requests && t.requests[id] == s.requests[id].(progress := Consumed)
                 && t.nodes[step.op.nodeId]
                    == Node(s.requests[id].name, s.requests[id].platform, step.now, step.op.token, false)
               case FromCode(c) =>
                 && c in s.codes && c in t.codes && t.codes[c] == s.codes[c].(used := true)
                 && t.nodes[step.op.nodeId] == Node(s.codes[c].name, step.op.platform, step.now, step.op.token, false)
  {
    match step.op
    case Poll(_, _, _, _, _) =>
    case Enroll(_, _, _, _) =>
  }

  /** A step that makes a code or opens a request. */
  predicate MakesCode(step: Step, c: string) {
    step.op.NewCode? && step.op.code == c
  }

  predicate OpensRequest(step: Step, id: string) {
    step.op.Create? && step.op.id == id
  }

  lemma CodeAfter(s: State, step: Step, c: string)
    requires FreshIds(s, step.op) && c in Next(s, step).codes
    ensures var t := Next(s, step);
            || (c in s.codes && t.codes[c].expiresAt == s.codes[c].expiresAt && t.codes[c].name == s.codes[c].name)
            || (MakesCode(step, c) && t.codes[c].expiresAt == step.now + 600_000_000_000
                && t.codes[c].name == step.op.name)
  {
    hide CreateError, PollAnswer, DecideError, FreshToken;
    match step.op
    case Decide(_, _) =>
    case _ =>
  }

  lemma RequestAfter(s: State, step: Step, id: string)
    requires FreshIds(s, step.op) && id in Next(s, step).requests
    ensures var t := Next(s, step);
            || (id in s.requests && t.requests[id].(progress := Pending) == s.requests[id].(progress := Pending))
            || (OpensRequest(step, id) && t.requests[id]
                  == Request(step.op.name, step.op.platform, step.op.ip, Pending, step.now,
                             step.now + 600_000_000_000, step.op.secret))
  {
    hide CreateError, EnrollError, FreshToken;
    match step.op
    case Decide(_, _) =>
    case _ =>
  }

  /** Every stored code was made by a step of the run and is good for ten minutes from then. */
  lemma {:induction false} CodeOrigin(states: seq<State>, steps: seq<Step>, n: nat, c: string) returns (j: nat)
    requires IsRun(states, steps) && n < |states| && c in states[n].codes
    ensures j < n && MakesCode(steps[j], c)
    ensures states[n].codes[c].expiresAt == steps[j].now + 600_000_000_000
    ensures states[n].codes[c].name == steps[j].op.name
  {
    assert n > 0 && IsStep(states[n - 1], steps[n - 1], states[n]);
    hide IsRun, Next, FreshIds;
    CodeAfter(states[n - 1], steps[n - 1], c);
    j := n - 1;
    if c in states[n - 1].codes && states[n].codes[c].expiresAt == states[n - 1].codes[c].expiresAt
       && states[n].codes[c].name == states[n - 1].codes[c].name {
      j := CodeOrigin(states, steps, n - 1, c);
    }
  }

  lemma {:induction false} RequestOrigin(states: seq<State>, steps: seq<Step>, n: nat, id: string) returns (j: nat)
    requires IsRun(states, steps) && n < |states| && id in states[n].requests
    ensures j < n && OpensRequest(steps[j], id)
    ensures states[n].requests[id].(progress := Pending)
         == Request(steps[j].op.name, steps[j].op.platform, steps[j].op.ip, Pending, steps[j].now,
                    steps[j].now + 600_000_000_000, steps[j].op.secret)
  {
    assert n > 0 && IsStep(states[n - 1], steps[n - 1], states[n]);
    hide IsRun, Next, FreshIds;
    RequestAfter(states[n - 1], steps[n - 1], id);
    j := n - 1;
    if id in states[n - 1].requests
       && states[n].requests[id].(progress := Pending) == states[n - 1].requests[id].(progress := Pending) {
      j := RequestOrigin(states, steps, n - 1, id);
    }
  }

  /** Whatever issues a credential was made earlier in the run, less than ten minutes before. */
  lemma CredentialIsInTime(states: seq<State>, steps: seq<Step>, i: nat) returns (j: nat)
    requires IsRun(states, steps) && i < |steps| && IssueOf(states[i], steps[i]).Some?
    ensures j < i && steps[i].now < steps[j].now + 600_000_000_000
    ensures match IssueOf(states[i], steps[i]).value
            case FromRequest(id) =>
              OpensRequest(steps[j], id) && steps[i].op.Poll? && steps[i].op.secret == steps[j].op.secret
            case FromCode(c) => MakesCode(steps[j], c) && steps[i].op.Enroll? && steps[i].op.code == c
  {
    IssuedCredential(states[i], steps[i]);
    assert |states| == |steps| + 1;
    hide IsRun, Next, IssueOf;
    if steps[i].op.Poll? {
      PollIssuesIff(states[i], steps[i]);
      j := RequestOrigin(states, steps, i, steps[i].op.id);
    } else {
      EnrollIssuesIff(states[i], steps[i]);
      j := CodeOrigin(states, steps, i, steps[i].op.code);
    }
  }

  // ---------------------------------------------------------------- quotas

  lemma {:induction false} SubsetIsSmaller(a: set<string>, b: set<string>)
    requires a <= b
    ensures |a| <= |b|
  {
    if a != {} {
      var x :| x in a;
      SubsetIsSmaller(a - {x}, b - {x});
    }
  }

  lemma GrowsByOne(a: set<string>, b: set<string>, grows: bool, x: string)
    requires b <= a + (if grows then {x} else {})
    ensures |b| <= |a| + if grows then 1 else 0
  {
    SubsetIsSmaller(b, a + if grows then {x} else {});
  }

  predicate CreatesFrom(s: State, step: Step, ip: string) {
    && step.commits > 0 && step.op.Create? && step.op.ip == ip
    && CreateError(s, step.now, step.op.name, step.op.platform, ip, step.op.parses) == None
  }

  predicate Creates(s: State, step: Step) {
    step.op.Create? && CreatesFrom(s, step, step.op.ip)
  }

  lemma OpenAfter(s: State, step: Step, t: int, ip: string)
    requires FreshIds(s, step.op)
    ensures Open(Next(s, step), t) <= Open(s, t) + (if Creates(s, step) then {step.op.id} else {})
    ensures OpenFrom(Next(s, step), t, ip) <= OpenFrom(s, t, ip)
            + (if CreatesFrom(s, step, ip) then {step.op.id} else {})
  {
    hide CreateError, EnrollError, FreshToken;
    match step.op
    case Decide(id, v) =>
    case _ =>
  }

  lemma OpenShrinks(s: State, now: int, t: int, ip: string)
    requires now <= t
    ensures |Open(s, t)| <= |Open(s, now)| && |OpenFrom(s, t, ip)| <= |OpenFrom(s, now, ip)|
  {
    SubsetIsSmaller(Open(s, t), Open(s, now));
    SubsetIsSmaller(OpenFrom(s, t, ip), OpenFrom(s, now, ip));
  }

  predicate Bounded(s: State, t: int, ip: string) {
    |Open(s, t)| <= OPEN_IN_TOTAL && |OpenFrom(s, t, ip)| <= OPEN_PER_SOURCE
  }

  lemma CountAfter(s: State, step: Step, t: int, ip: string)
    requires FreshIds(s, step.op)
    ensures |Open(Next(s, step), t)| <= |Open(s, t)| + if Creates(s, step) then 1 else 0
    ensures |OpenFrom(Next(s, step), t, ip)| <= |OpenFrom(s, t, ip)| + if CreatesFrom(s, step, ip) then 1 else 0
  {
    OpenAfter(s, step, t, ip);
    var id := if step.op.Create? then step.op.id else "";
    hide Next, FreshIds, Open, OpenFrom, CreateError;
    GrowsByOne(Open(s, t), Open(Next(s, step), t), Creates(s, step), id);
    GrowsByOne(OpenFrom(s, t, ip), OpenFrom(Next(s, step), t, ip), CreatesFrom(s, step, ip), id);
  }

  lemma CreationHasRoom(s: State, step: Step, ip: string)
    ensures Creates(s, step) ==> |Open(s, step.now)| < OPEN_IN_TOTAL
    ensures CreatesFrom(s, step, ip) ==> |OpenFrom(s, step.now, ip)| < OPEN_PER_SOURCE
  {
    hide Open, OpenFrom, KnownPlatform;
  }

  lemma StepKeepsBounds(s: State, step: Step, t: int, ip: string)
    requires FreshIds(s, step.op) && step.now <= t && Bounded(s, t, ip)
    ensures Bounded(Next(s, step), t, ip)
  {
    hide Next, FreshIds, Open, OpenFrom, Creates, CreatesFrom;
    CountAfter(s, step, t, ip);
    OpenShrinks(s, step.now, t, ip);
    CreationHasRoom(s, step, ip);
  }

  /** At every moment no earlier than the clock readings so far, at most 256 requests are unexpired,
      and at most 5 from any one source. */
  lemma {:induction false} OpenRequestsAreBounded(states: seq<State>, steps: seq<Step>, n: nat, t: int, ip: string)
    requires IsRun(states, steps) && n < |states|
    requires forall i :: 0 <= i < n ==> steps[i].now <= t
    ensures Bounded(states[n], t, ip)
  {
    if n == 0 {
      assert Open(states[0], t) == {} && OpenFrom(states[0], t, ip) == {};
    } else {
      assert IsStep(states[n - 1], steps[n - 1], states[n]);
      hide Next, FreshIds, IsRun, Bounded;
      OpenRequestsAreBounded(states, steps, n - 1, t, ip);
      StepKeepsBounds(states[n - 1], steps[n - 1], t, ip);
    }
  }

  function Tally(n: nat): string {
    seq(n, i => 'a')
  }

  /** The n-th request of one source. */
  function Nth(n: nat, now: int): Step {
    Step(now, Create(Tally(n), "", "n", "linux", "ip", true), 1)
  }

  predicate FromSource(r: Request, t: int) {
    r.expiresAt == t + LIFETIME && r.ip == "ip"
  }

  /** Exactly the given requests, all of one source and made at time t. */
  predicate Opened(s: State, ids: set<string>, t: int) {
    s.blocks == {} && s.requests.Keys == ids && forall id :: id in s.requests ==> FromSource(s.requests[id], t)
  }

  lemma OpenedCounts(s: State, ids: set<string>, t: int)
    requires Opened(s, ids, t)
    ensures Open(s, t) == ids && OpenFrom(s, t, "ip") == ids
    ensures Open(s, t + LIFETIME) == {} && OpenFrom(s, t + LIFETIME, "ip") == {}
  {
  }

  lemma NthPasses(s: State, n: nat, now: int)
    requires s.blocks == {} && |OpenFrom(s, now, "ip")| < OPEN_PER_SOURCE && |Open(s, now)| < OPEN_PER_SOURCE
    ensures Next(s, Nth(n, now)) == CreateAfter(s, now, Tally(n), "", "n", "linux", "ip")
  {
    hide Open, OpenFrom;
    assert CreateError(s, now, "n", "linux", "ip", true) == None;
  }

  lemma OpenedGrows(s: State, ids: set<string>, t: int, id: string)
    requires Opened(s, ids, t)
    ensures Opened(CreateAfter(s, t, id, "", "n", "linux", "ip"), ids + {id}, t)
  {
    var u := CreateAfter(s, t, id, "", "n", "linux", "ip");
    assert FromSource(u.requests[id], t);
    assert u.requests.Keys == s.requests.Keys + {id};
    hide FromSource;
  }

  lemma OneMore(s: State, ids: set<string>, n: nat, t: int)
    requires Opened(s, ids, t) && |ids| < OPEN_PER_SOURCE && Tally(n) !in ids
    ensures FreshIds(s, Nth(n, t).op) && Opened(Next(s, Nth(n, t)), ids + {Tally(n)}, t)
  {
    assert s.blocks == {} && FreshIds(s, Nth(n, t).op);
    hide Opened, Open, OpenFrom, Next, FreshIds, Nth, CreateAfter;
    OpenedCounts(s, ids, t);
    NthPasses(s, n, t);
    OpenedGrows(s, ids, t, Tally(n));
  }

  lemma NothingOpened(t: int)
    ensures IsRun([EMPTY], []) && Opened(EMPTY, {}, t)
  {
  }

  lemma {:induction false} OpenedRun(n: nat, t: int) returns (states: seq<State>, steps: seq<Step>, ids: set<string>)
    requires n <= OPEN_PER_SOURCE
    ensures IsRun(states, steps) && |steps| == n && |states| == n + 1 && Opened(states[n], ids, t)
    ensures |ids| == n && forall id :: id in ids ==> |id| < n
  {
    hide Opened, Next, FreshIds, Nth, IsRun;
    if n == 0 {
      states, steps, ids := [EMPTY], [], {};
      NothingOpened(t);
    } else {
      states, steps, ids := OpenedRun(n - 1, t);
      OneMore(states[n - 1], ids, n - 1, t);
      states, steps := Grown(states, steps, Nth(n - 1, t));
      ids := ids + {Tally(n - 1)};
    }
  }

  /** A run goes on with any step whose ids are fresh. */
  lemma Grown(states: seq<State>, steps: seq<Step>, step: Step) returns (ss: seq<State>, os: seq<Step>)
    requires IsRun(states, steps) && FreshIds(states[|steps|], step.op)
    ensures IsRun(ss, os) && |os| == |steps| + 1 && |ss| == |os| + 1 && ss[|os|] == Next(states[|steps|], step)
  {
    ss, os := states + [Next(states[|steps|], step)], steps + [step];
    hide Next, FreshIds;
    forall i | 0 <= i < |os|
      ensures IsStep(ss[i], os[i], ss[i + 1])
    {
      if i < |steps| {
        assert IsStep(states[i], steps[i], states[i + 1]);
      }
    }
  }

  lemma OpenFromGrows(s: State, t: int, id: string)
    requires id !in s.requests
    ensures OpenFrom(CreateAfter(s, t + LIFETIME, id, "", "n", "linux", "ip"), t, "ip") == OpenFrom(s, t, "ip") + {id}
  {
  }

  lemma SixthRequest(s: State, ids: set<string>, t: int)
    requires Opened(s, ids, t) && |ids| == OPEN_PER_SOURCE && Tally(OPEN_PER_SOURCE) !in ids
    ensures var step := Nth(OPEN_PER_SOURCE, t + LIFETIME);
            FreshIds(s, step.op) && |OpenFrom(Next(s, step), t, "ip")| == OPEN_PER_SOURCE + 1
  {
    var id := Tally(OPEN_PER_SOURCE);
    assert s.blocks == {} && id !in s.requests && FreshIds(s, Nth(OPEN_PER_SOURCE, t + LIFETIME).op);
    hide *;
    OpenedCounts(s, ids, t);
    NthPasses(s, OPEN_PER_SOURCE, t + LIFETIME);
    OpenFromGrows(s, t, id);
    assert |ids + {id}| == |ids| + 1;
  }

  /** The clock must not run backwards: after five requests at t and a sixth one lifetime later, a
      clock set back to t shows six unexpired requests of one source. */
  lemma ClockSetBack(t: int) returns (states: seq<State>, steps: seq<Step>)
    ensures IsRun(states, steps) && |steps| == 6 && |OpenFrom(states[6], t, "ip")| == OPEN_PER_SOURCE + 1
  {
    var ids;
    states, steps, ids := OpenedRun(OPEN_PER_SOURCE, t);
    hide IsRun, OpenFrom, Next, Nth, FreshIds, Opened;
    SixthRequest(states[5], ids, t);
    states, steps := Grown(states, steps, Nth(OPEN_PER_SOURCE, t + LIFETIME));
  }

  // ---------------------------------------------------------------- blocked sources

  lemma {:induction false} BlockLasts(states: seq<State>, steps: seq<Step>, i: nat, j: nat, ip: string)
    requires IsRun(states, steps) && i <= j < |states| && ip in states[i].blocks
    requires forall k :: i <= k < j ==> steps[k].op != Unblock(ip)
    ensures ip in states[j].blocks
  {
    if i < j {
      BlockLasts(states, steps, i, j - 1, ip);
      assert IsStep(states[j - 1], steps[j - 1], states[j]);
      hide IsRun, CreateError, PollAnswer, EnrollError, FreshIds;
    }
  }

  /** Between its block and the next unblocking, a source opens no request and its requests yield
      no credential and are not approved. */
  lemma BlockedSourceGetsNothing(states: seq<State>, steps: seq<Step>, i: nat, j: nat, ip: string)
    requires IsRun(states, steps) && i <= j < |steps| && ip in states[i].blocks
    requires forall k :: i <= k < j ==> steps[k].op != Unblock(ip)
    ensures !CreatesFrom(states[j], steps[j], ip)
    ensures forall id :: id in states[j].requests && states[j].requests[id].ip == ip ==>
              && IssueOf(states[j], steps[j]) != Some(FromRequest(id))
              && (states[j].requests[id].progress == Pending ==>
                    id in states[j + 1].requests && states[j + 1].requests[id].progress != Approved)
  {
    BlockLasts(states, steps, i, j, ip);
    assert IsStep(states[j], steps[j], states[j + 1]);
    hide IsRun, Open, OpenFrom, EnrollError;
  }

  /** A step that blocks a source: the decision on one of its open, undecided requests. */
  predicate Blocks(s: State, step: Step, ip: string) {
    && step.op.Decide? && step.op.verdict == BlockSource && step.commits > 0
    && step.op.id in s.requests && s.requests[step.op.id].ip == ip
    && s.requests[step.op.id].progress == Pending && step.now < s.requests[step.op.id].expiresAt
  }

  predicate Unblocks(step: Step, ip: string) {
    step.op == Unblock(ip) && step.commits > 0
  }

  lemma BlocksAfter(s: State, step: Step, ip: string)
    requires FreshIds(s, step.op)
    ensures ip in Next(s, step).blocks <==> Blocks(s, step, ip) || (ip in s.blocks && !Unblocks(step, ip))
  {
    hide CreateError, PollAnswer, EnrollError, FreshToken;
    match step.op
    case Decide(_, _) =>
    case _ =>
  }

  /** Step i blocked the source, and no later step before n unblocked it. */
  predicate StandingBlock(states: seq<State>, steps: seq<Step>, i: nat, n: nat, ip: string)
    requires n <= |steps| <= |states|
  {
    i < n && Blocks(states[i], steps[i], ip) && forall k :: i < k < n ==> !Unblocks(steps[k], ip)
  }

  lemma StandingStep(states: seq<State>, steps: seq<Step>, i: nat, n: nat, ip: string)
    requires i < n <= |steps| <= |states|
    ensures StandingBlock(states, steps, i, n, ip) <==>
              if i == n - 1 then Blocks(states[i], steps[i], ip)
              else StandingBlock(states, steps, i, n - 1, ip) && !Unblocks(steps[n - 1], ip)
  {
    hide Blocks, Unblocks;
  }

  ghost predicate HasStandingBlock(states: seq<State>, steps: seq<Step>, n: nat, ip: string)
    requires n <= |steps| <= |states|
  {
    exists i: nat :: i < n && StandingBlock(states, steps, i, n, ip)
  }

  lemma OneStepMore(states: seq<State>, steps: seq<Step>, n: nat, ip: string)
    requires 0 < n <= |steps| <= |states|
    ensures HasStandingBlock(states, steps, n, ip) <==>
              || Blocks(states[n - 1], steps[n - 1], ip)
              || (HasStandingBlock(states, steps, n - 1, ip) && !Unblocks(steps[n - 1], ip))
  {
    hide StandingBlock, Blocks, Unblocks;
    if HasStandingBlock(states, steps, n, ip) {
      var i: nat :| i < n && StandingBlock(states, steps, i, n, ip);
      StandingStep(states, steps, i, n, ip);
    }
    if Blocks(states[n - 1], steps[n - 1], ip) {
      StandingStep(states, steps, n - 1, n, ip);
    } else if HasStandingBlock(states, steps, n - 1, ip) && !Unblocks(steps[n - 1], ip) {
      var i: nat :| i < n - 1 && StandingBlock(states, steps, i, n - 1, ip);
      StandingStep(states, steps, i, n, ip);
    }
  }

  /** A source is blocked exactly when some step blocked it and none has unblocked it since. */
  lemma {:induction false} BlockedIffStanding(states: seq<State>, steps: seq<Step>, n: nat, ip: string)
    requires IsRun(states, steps) && n <= |steps|
    ensures |states| == |steps| + 1
    ensures ip in states[n].blocks <==> HasStandingBlock(states, steps, n, ip)
  {
    assert |states| == |steps| + 1;
    if n > 0 {
      assert IsStep(states[n - 1], steps[n - 1], states[n]);
      hide IsRun, Next, FreshIds, Blocks, Unblocks, HasStandingBlock;
      BlockedIffStanding(states, steps, n - 1, ip);
      BlocksAfter(states[n - 1], steps[n - 1], ip);
      OneStepMore(states, steps, n, ip);
    } else {
      assert states[0] == EMPTY;
    }
  }
}
