/** The engine's enrollment calls as methods over the stored records; each is one step of a run. */
module EnrollmentObject {
  import opened Common
  import opened Enrollment

  /** How many elements of s have left the work list. */
  ghost function Visited(s: set<string>, todo: set<string>): nat {
    |s - todo|
  }

  lemma NoneVisited(s: set<string>, ids: set<string>)
    requires s <= ids
    ensures Visited(s, ids) == 0
  {
    assert s - ids == {};
  }

  lemma AllVisited(s: set<string>)
    ensures Visited(s, {}) == |s|
  {
    assert s - {} == s;
  }

  lemma VisitOne(s: set<string>, todo: set<string>, id: string)
    requires id in todo
    ensures Visited(s, todo - {id}) == Visited(s, todo) + if id in s then 1 else 0
  {
    if id in s {
      assert s - (todo - {id}) == (s - todo) + {id};
    } else {
      assert s - (todo - {id}) == s - todo;
    }
  }

  /** What the caller is told: the refusal, the lost commit, or success. */
  function Answered(refusal: Option<Error>, committed: bool): Option<Error> {
    if refusal.Some? then refusal else if committed then None else Some(CommitFailed)
  }

  class Desk {
    var requests: map<string, Request>
    var codes: map<string, Code>
    var nodes: map<string, Node>
    var blocks: set<string>
    var audits: seq<Row>

    ghost function Contents(): State
      reads this
    {
      State(requests, codes, nodes, blocks, audits)
    }

    constructor ()
      ensures Contents() == EMPTY
    {
      requests, codes, nodes, blocks, audits := map[], map[], map[], {}, [];
    }

    /** The quota loop: unexpired requests of one source and of all sources. */
    method CountOpen(now: int, ip: string) returns (count: nat, total: nat)
      ensures count == |OpenFrom(Contents(), now, ip)| && total == |Open(Contents(), now)|
    {
      ghost var open, from := Open(Contents(), now), OpenFrom(Contents(), now, ip);
      ghost var ids := requests.Keys;
      hide Visited;
      NoneVisited(open, ids);
      NoneVisited(from, ids);
      AllVisited(open);
      AllVisited(from);
      count, total := 0, 0;
      var todo := requests.Keys;
      while todo != {}
        invariant todo <= ids
        invariant total == Visited(open, todo) && count == Visited(from, todo)
        decreases |todo|
      {
        var id :| id in todo;
        VisitOne(open, todo, id);
        VisitOne(from, todo, id);
        assert id in requests;
        if now < requests[id].expiresAt {
          total := total + 1;
          if requests[id].ip == ip {
            count := count + 1;
          }
        }
        todo := todo - {id};
      }
    }

    method CreateClientRequest(now: int, id: string, secret: string, name: string, platform: string, ip: string,
                               parses: bool, commits: nat)
      returns (error: Option<Error>)
      modifies this
      ensures error == Answered(CreateError(old(Contents()), now, name, platform, ip, parses), commits > 0)
      ensures Contents() == Next(old(Contents()), Step(now, Create(id, secret, name, platform, ip, parses), commits))
    {
      hide Open, OpenFrom;
      if |name| == 0 || |name| > 120 || !KnownPlatform(platform) {
        return Some(InvalidDevice);
      }
      if !parses {
        return Some(UnknownSource);
      }
      if ip in blocks {
        return Some(SourceBlocked);
      }
      var count, total := CountOpen(now, ip);
      if count >= OPEN_PER_SOURCE || total >= OPEN_IN_TOTAL {
        return Some(TooManyRequests);
      }
      if commits == 0 {
        return Some(CommitFailed);
      }
      requests := requests[id := Request(name, platform, ip, Pending, now, now + LIFETIME, secret)];
      audits := audits + [Row("client.request", id)];
      return None;
    }

    method DecideClientRequest(now: int, id: string, verdict: Verdict, commits: nat) returns (error: Option<Error>)
      modifies this
      ensures error == Answered(DecideError(old(Contents()), now, id, verdict), commits >= CommitsOf(verdict))
      ensures Contents() == Next(old(Contents()), Step(now, Decide(id, verdict), commits))
    {
      if id !in requests {
        return Some(NoSuchRequest);
      }
      var r := requests[id];
      if r.progress != Pending || now >= r.expiresAt {
        return Some(AlreadyDecided);
      }
      var left := commits;
      match verdict {
        case Approve =>
          if r.ip in blocks {
            return Some(SourceBlocked);
          }
          r := r.(progress := Approved);
        case Reject =>
          r := r.(progress := Rejected);
        case BlockSource =>
          if left == 0 {
            return Some(CommitFailed);
          }
          blocks := blocks + {r.ip};
          audits := audits + [Row("client.ip.block", r.ip)];
          left := left - 1;
          r := r.(progress := Rejected);
        case OtherVerdict =>
          return Some(UnknownDecision);
      }
      if left == 0 {
        return Some(CommitFailed);
      }
      requests := requests[id := r];
      audits := audits + [Row(DecideAction(verdict), id)];
      return None;
    }

    method PollClientRequest(now: int, id: string, secret: string, ip: string, nodeId: string, token: string,
                             commits: nat)
      returns (answer: Answer)
      modifies this
      ensures var a := PollAnswer(old(Contents()), now, id, secret, ip);
              answer == if a == Grant && commits == 0 then NotIssued else a
      ensures Contents() == Next(old(Contents()), Step(now, Poll(id, secret, ip, nodeId, token), commits))
    {
      if |secret| != SECRET_LENGTH || id !in requests || requests[id].secret != secret {
        return BadSecret;
      }
      var r := requests[id];
      if ip in blocks || r.ip in blocks {
        return Blocked;
      }
      if now >= r.expiresAt {
        return Expired;
      }
      if r.progress != Approved {
        return Waiting(r.progress);
      }
      if commits == 0 {
        return NotIssued;
      }
      requests := requests[id := r.(progress := Consumed)];
      IssueClientCredential(now, nodeId, token, r.name, r.platform);
      return Grant;
    }

    method IssueClientCredential(now: int, nodeId: string, token: string, name: string, platform: string)
      modifies this
      ensures Contents() == Issued(old(Contents()), now, nodeId, token, name, platform)
    {
      nodes := nodes[nodeId := Node(name, platform, now, token, false)];
      audits := audits + [Row(ENROLL, nodeId)];
    }

    method CreateEnrollment(now: int, code: string, name: string, commits: nat) returns (error: Option<Error>)
      modifies this
      ensures error == Answered(if |name| > 120 then Some(NameTooLong) else None, commits > 0)
      ensures Contents() == Next(old(Contents()), Step(now, NewCode(code, name), commits))
    {
      if |name| > 120 {
        return Some(NameTooLong);
      }
      if commits == 0 {
        return Some(CommitFailed);
      }
      codes := codes[code := Code(name, now + LIFETIME, false)];
      audits := audits + [Row("client.enrollment.create", code)];
      return None;
    }

    method EnrollClient(now: int, code: string, platform: string, nodeId: string, token: string, commits: nat)
      returns (error: Option<Error>)
      modifies this
      ensures error == Answered(EnrollError(old(Contents()), now, code, platform), commits > 0)
      ensures Contents() == Next(old(Contents()), Step(now, Enroll(code, platform, nodeId, token), commits))
    {
      if |code| != SECRET_LENGTH || !KnownPlatform(platform) {
        return Some(InvalidCode);
      }
      if code !in codes || codes[code].used || now >= codes[code].expiresAt {
        return Some(InvalidCode);
      }
      var record := codes[code];
      if commits == 0 {
        return Some(CommitFailed);
      }
      codes := codes[code := record.(used := true)];
      IssueClientCredential(now, nodeId, token, record.name, platform);
      return None;
    }

    method RevokeClient(now: int, id: string, commits: nat) returns (error: Option<Error>)
      modifies this
      ensures error == Answered(if id in old(nodes) then None else Some(NoSuchNode), commits > 0)
      ensures Contents() == Next(old(Contents()), Step(now, Revoke(id), commits))
    {
      if id !in nodes {
        return Some(NoSuchNode);
      }
      if commits == 0 {
        return Some(CommitFailed);
      }
      nodes := nodes[id := nodes[id].(revoked := true)];
      audits := audits + [Row("client.revoke", id)];
      return None;
    }

    method UnblockClientIP(now: int, ip: string, commits: nat) returns (error: Option<Error>)
      modifies this
      ensures error == Answered(None, commits > 0)
      ensures Contents() == Next(old(Contents()), Step(now, Unblock(ip), commits))
    {
      if commits == 0 {
        return Some(CommitFailed);
      }
      blocks := blocks - {ip};
      audits := audits + [Row("client.ip.unblock", ip)];
      return None;
    }

    /** The node a token stands for; tokens are unique in every reachable state. */
    method AuthenticateClient(token: string) returns (node: Option<string>)
      requires UniqueTokens(Contents())
      ensures forall id :: node == Some(id) <==> AuthenticatesAs(Contents(), token, id)
    {
      node := None;
      if |token| == SECRET_LENGTH && exists id :: id in nodes && nodes[id].token == token {
        var id :| id in nodes && nodes[id].token == token;
        if !nodes[id].revoked {
          return Some(id);
        }
      }
    }
  }
}
