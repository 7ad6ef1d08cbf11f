/**
 The per-user workspace gateway (apps/server/src/gateway.ts): provision or resume, and relay calls.
 The clock moves by the time each upstream answer takes, every answer is arbitrary, calls run one
 after another and the record storage is reliable.
 */
module Gateway {
  import opened Wrappers
  import opened Utf16

  const FLOOR_MS := 30_000
  const SHORTEST_WINDOW_MS := 60_000

  // ------------------------------------------------------------------ names and keys

  const SLASH: Unit := 47

  predicate NameUnit(u: Unit) {
    65 <= u <= 90 || 97 <= u <= 122 || IsDigit(u) || u == 95 || u == DOT || u == MINUS
  }

  predicate NameText(t: Text) {
    t != [] && forall i :: 0 <= i < |t| ==> NameUnit(t[i])
  }

  predicate Dots(t: Text) {
    t == [DOT] || t == [DOT, DOT]
  }

  /** owner/name, each of the allowed characters and neither a dot segment. */
  predicate IsRelayRepoName(repo: Text) {
    var slash := UntilUnit(repo, SLASH);
    && slash < |repo|
    && NameText(repo[..slash]) && NameText(repo[slash + 1..])
    && !Dots(repo[..slash]) && !Dots(repo[slash + 1..])
  }

  /** A path with its dot segments resolved, as URL parsing does. */
  function Resolved(segments: seq<Text>): seq<Text> {
    if segments == [] then []
    else
      var front := Resolved(segments[..|segments| - 1]);
      var last := segments[|segments| - 1];
      if last == [DOT] then front
      else if last == [DOT, DOT] then (if front == [] then [] else front[..|front| - 1])
      else front + [last]
  }

  function ProvisionPath(owner: Text, name: Text): seq<Text> {
    [Lit("api"), Lit("repos"), owner, name, Lit("gateway")]
  }

  lemma {:induction false} ResolvedIsShorter(segments: seq<Text>)
    ensures |Resolved(segments)| <= |segments|
    ensures |Resolved(segments)| == |segments| ==> forall i :: 0 <= i < |segments| ==> !Dots(segments[i])
    ensures (forall i :: 0 <= i < |segments| ==> !Dots(segments[i])) ==> Resolved(segments) == segments
  {
    if segments != [] {
      var front := segments[..|segments| - 1];
      ResolvedIsShorter(front);
      assert segments == front + [segments[|segments| - 1]];
      assert forall i :: 0 <= i < |front| ==> front[i] == segments[i];
    }
  }

  /** Of the names made of allowed characters, exactly the accepted ones address their own route. */
  lemma RelayNamesKeepTheirRoute(owner: Text, name: Text)
    requires NameText(owner) && NameText(name)
    ensures IsRelayRepoName(owner + [SLASH] + name)
       <==> Resolved(ProvisionPath(owner, name)) == ProvisionPath(owner, name)
  {
    var repo := owner + [SLASH] + name;
    UntilUnitIs(owner, SLASH, name);
    assert repo[..|owner|] == owner && repo[|owner| + 1..] == name;
    var path := ProvisionPath(owner, name);
    ResolvedIsShorter(path);
    assert path[2] == owner && path[3] == name;
    assert |path[0]| == 3 && |path[1]| == 5 && |path[4]| == 7;
  }

  /** An accepted name has one slash, and nothing else that a URL reads as more than a letter of its path. */
  lemma NamesHoldNothingElse(repo: Text, i: nat)
    requires IsRelayRepoName(repo) && i < |repo|
    ensures var u := repo[i];
            || u in Lit("-._") || 48 <= u <= 57 || 65 <= u <= 90 || 97 <= u <= 122
            || (u == 47 && forall j :: 0 <= j < |repo| && j != i ==> repo[j] != 47)
  {
    var slash := UntilUnit(repo, SLASH);
    var owner, name := repo[..slash], repo[slash + 1..];
    assert forall j :: 0 <= j < slash ==> repo[j] == owner[j];
    assert forall j :: slash < j < |repo| ==> repo[j] == name[j - slash - 1];
    var rest := Lit("-._");
    assert rest[0] == MINUS && rest[1] == DOT && rest[2] == 95;
  }

  /** The key of a record: login and repo around a NUL. */
  function RecordKey(login: Text, repo: Text): Text {
    login + [0] + repo
  }

  /** No two accounts or repositories share a record, whatever the logins are. */
  lemma RecordKeysDiffer(login: Text, repo: Text, otherLogin: Text, otherRepo: Text)
    requires IsRelayRepoName(repo) && IsRelayRepoName(otherRepo)
    requires RecordKey(login, repo) == RecordKey(otherLogin, otherRepo)
    ensures login == otherLogin && repo == otherRepo
  {
    RelayNameHasNoNul(repo);
    RelayNameHasNoNul(otherRepo);
    SplitAtLast(login, repo, otherLogin, otherRepo);
  }

  lemma RelayNameHasNoNul(repo: Text)
    requires IsRelayRepoName(repo)
    ensures forall i :: 0 <= i < |repo| ==> repo[i] != 0
  {
    var slash := UntilUnit(repo, SLASH);
    assert forall i :: 0 <= i < slash ==> repo[i] == repo[..slash][i];
    assert forall i :: slash < i < |repo| ==> repo[i] == repo[slash + 1..][i - slash - 1];
  }

  lemma SplitAtLast(a: Text, b: Text, c: Text, d: Text)
    requires forall i :: 0 <= i < |b| ==> b[i] != 0
    requires forall i :: 0 <= i < |d| ==> d[i] != 0
    requires a + [0] + b == c + [0] + d
    ensures a == c && b == d
  {
    var t := a + [0] + b;
    assert t[|a|] == 0 && t[|c|] == 0;
    assert forall i :: |a| < i < |t| ==> t[i] == b[i - |a| - 1];
    assert forall i :: |c| < i < |t| ==> t[i] == d[i - |c| - 1];
    assert |a| == |c|;
    assert t[..|a|] == a && t[..|c|] == c && t[|a| + 1..] == b && t[|c| + 1..] == d;
  }

  // ------------------------------------------------------------------ what upstream may answer

  /** An answer and how long it took. */
  datatype Reply<A> = Reply(elapsed: nat, answer: A)

  datatype Door = Token(token: Text) | NotConfigured | DoorUnavailable | NotFound

  /** A provisioned gateway as the body describes it; no expiry stands for one that does not parse. */
  datatype Grant = Grant(gatewayId: Text, baseUrl: Text, token: Text, vmId: Option<Text>, expiresAt: Option<int>)

  datatype Post =
    | TimedOut
    | ConnectionFailed
    | Answered(status: int, saysNoCapacity: bool, body: Option<Grant>)

  /** The relay's status, or no answer: a connection that failed or a deadline that passed. */
  datatype Relay = NoAnswer | Status(code: int)

  datatype Record = Record(
    gatewayId: Text, baseUrl: Text, token: Text, vmId: Option<Text>,
    expiresAt: int, renewAfter: int, provisionedAt: int)

  datatype Outcome = Ready(record: Record) | Provisioning | NoCapacity | Unavailable | NoCloudToken | NoCloudRepo

  datatype Provision = Settled(outcome: Outcome) | TokenRejected

  datatype CallOutcome = Reached(status: int) | Stopped(outcome: Outcome) | Asleep | Unreached

  /** The answers one `ensureGateway` may need. */
  datatype Attempts = Attempts(door: Reply<Door>, post: Reply<Post>, again: Reply<Door>, second: Reply<Post>)

  /** The answers one `callGateway` may need. */
  datatype Script = Script(first: Attempts, relay: Reply<Relay>, renewal: Attempts, retry: Reply<Relay>)

  datatype Event =
    | Posted(key: Text, at: int, token: Text)
    | Provisioned(key: Text, at: int)
    | Relayed(key: Text, at: int, token: Text, answer: Relay)

  /** The stored records, the clock, and everything sent upstream. */
  datatype State = State(records: map<Text, Record>, clock: int, trace: seq<Event>)

  predicate IsTunnelFailure(code: int) {
    code == 502 || code == 503 || code == 504
  }

  /** A relay attempt that says the record is stale whatever its age. */
  predicate Refused(answer: Relay) {
    answer.NoAnswer? || answer.code == 401
  }

  predicate TunnelFailed(answer: Relay) {
    answer.Status? && IsTunnelFailure(answer.code)
  }

  // ------------------------------------------------------------------ one step upstream

  function Max(a: int, b: int): int {
    if a < b then b else a
  }

  /** The record for a grant; the midpoint is rounded up because the clock counts whole milliseconds. */
  function Mint(grant: Grant, now: int): (record: Record)
    ensures record.provisionedAt == now && record.renewAfter >= now + SHORTEST_WINDOW_MS
  {
    var expiresAt := if grant.expiresAt.Some? then grant.expiresAt.value else now + 60 * 60 * 1000;
    var renewAfter :=
      if grant.expiresAt.Some? then now + Max((expiresAt - now + 1) / 2, SHORTEST_WINDOW_MS)
      else now + 30 * 60 * 1000;
    Record(grant.gatewayId, grant.baseUrl, grant.token, grant.vmId, expiresAt, renewAfter, now)
  }

  function Interpreted(post: Post, now: int): Provision
  {
    match post
    case TimedOut => Settled(Provisioning)
    case ConnectionFailed => Settled(Unavailable)
    case Answered(status, saysNoCapacity, body) =>
      if status == 401 then TokenRejected
      else if status == 409 then Settled(Provisioning)
      else if status == 404 then Settled(NoCloudRepo)
      else if status == 429 then Settled(NoCapacity)
      else if !(200 <= status < 300) then
        Settled(if status == 500 && saysNoCapacity then NoCapacity else Unavailable)
      else if body.None? then Settled(Unavailable)
      else Settled(Ready(Mint(body.value, now)))
  }

  /** The returned values are adopted, and renewal is at the midpoint of the issued window or a minute on. */
  lemma MintAdopts(grant: Grant, now: int)
    ensures var record := Mint(grant, now);
            && record.gatewayId == grant.gatewayId && record.baseUrl == grant.baseUrl
            && record.token == grant.token && record.vmId == grant.vmId
            && (grant.expiresAt.Some? ==>
                  || record.renewAfter == now + SHORTEST_WINDOW_MS >= now + (grant.expiresAt.value - now) / 2
                  || 0 <= (record.renewAfter - now) - (grant.expiresAt.value - record.renewAfter) <= 1)
            && (grant.expiresAt.Some? ==> record.expiresAt == grant.expiresAt.value)
            && (grant.expiresAt.None? ==> record.renewAfter == now + 1_800_000 && record.expiresAt == now + 3_600_000)
  {
  }

  /** The taxonomy: each outcome has its own causes, and only an understood success is ready. */
  lemma Taxonomy(post: Post, now: int)
    ensures var result := Interpreted(post, now);
            && (result.TokenRejected? <==> post.Answered? && post.status == 401)
            && (result == Settled(Provisioning) <==> post.TimedOut? || (post.Answered? && post.status == 409))
            && (result == Settled(NoCloudRepo) <==> post.Answered? && post.status == 404)
            && (result == Settled(NoCapacity) <==>
                  post.Answered? && (post.status == 429 || (post.status == 500 && post.saysNoCapacity)))
            && (result.Settled? && result.outcome.Ready? <==>
                  post.Answered? && 200 <= post.status < 300 && post.body.Some?)
            && (result.Settled? && result.outcome.Ready? ==> result.outcome.record == Mint(post.body.value, now))
  {
  }

  /** A provision was posted and answered. */
  function AfterPost(s: State, key: Text, token: Text, elapsed: nat): State {
    State(s.records, s.clock + elapsed, s.trace + [Posted(key, s.clock, token)])
  }

  /** The returned gateway is adopted. */
  function AfterGrant(s: State, key: Text, record: Record): State {
    State(s.records[key := record], s.clock, s.trace + [Provisioned(key, s.clock)])
  }

  /** `provisionGateway`. */
  function ProvisionStep(s: State, key: Text, token: Text, reply: Reply<Post>): (State, Provision) {
    var posted := AfterPost(s, key, token, reply.elapsed);
    var result := Interpreted(reply.answer, posted.clock);
    var ready := result.Settled? && result.outcome.Ready?;
    (if ready then AfterGrant(posted, key, result.outcome.record) else posted, result)
  }

  function Waited(s: State, elapsed: nat): State {
    s.(clock := s.clock + elapsed)
  }

  /** The token a request is sent with. */
  function Bearer(door: Door): Text {
    if door.Token? then door.token else []
  }

  function TokenOf(gateway: Outcome): Text {
    if gateway.Ready? then gateway.record.token else []
  }

  function DoorOutcome(door: Door): Outcome {
    if door.NotFound? then NoCloudToken else Unavailable
  }

  predicate Fresh(s: State, key: Text) {
    key in s.records && s.clock < s.records[key].renewAfter
  }

  /** `ensureGateway`. */
  function Ensured(s: State, login: Text, repo: Text, force: bool, a: Attempts): (State, Outcome) {
    var key := RecordKey(login, repo);
    if !IsRelayRepoName(repo) then (s, Unavailable)
    else if !force && Fresh(s, key) then (s, Ready(s.records[key]))
    else
      var asked := Waited(s, a.door.elapsed);
      if !a.door.answer.Token? then (asked, DoorOutcome(a.door.answer))
      else
        var (posted, first) := ProvisionStep(asked, key, Bearer(a.door.answer), a.post);
        if first.Settled? then (posted, first.outcome)
        else
          var reminted := Waited(posted, a.again.elapsed);
          if !a.again.answer.Token? then (reminted, DoorOutcome(a.again.answer))
          else
            var (settled, second) := ProvisionStep(reminted, key, Bearer(a.again.answer), a.second);
            (settled, if second.Settled? then second.outcome else Unavailable)
  }

  function Sent(s: State, key: Text, token: Text, reply: Reply<Relay>): State {
    var now := s.clock + reply.elapsed;
    State(s.records, now, s.trace + [Relayed(key, now, token, reply.answer)])
  }

  function Answer(answer: Relay): CallOutcome {
    if answer.Status? then Reached(answer.code) else Unreached
  }

  /** A call, given what its two resolutions of the gateway came to. */
  function Concluded(
    key: Text, replayable: bool, script: Script, ready: State, gateway: Outcome, renewed: State, again: Outcome)
    : (State, CallOutcome)
  {
    var sent, answer := Sent(ready, key, TokenOf(gateway), script.relay), script.relay.answer;
    if !gateway.Ready? then (ready, Stopped(gateway))
    else if !Refused(answer) && !TunnelFailed(answer) then (sent, Answer(answer))
    else if TunnelFailed(answer) && sent.clock - gateway.record.provisionedAt < FLOOR_MS then (sent, Answer(answer))
    else if !again.Ready? then (renewed, Stopped(again))
    else if TunnelFailed(answer) && !replayable then (renewed, Asleep)
    else (Sent(renewed, key, TokenOf(again), script.retry), Answer(script.retry.answer))
  }

  /** `callGateway`; the second resolution is of no account unless the first attempt calls for it. */
  function Called(s: State, login: Text, repo: Text, replayable: bool, script: Script): (State, CallOutcome) {
    var key := RecordKey(login, repo);
    var (ready, gateway) := Ensured(s, login, repo, false, script.first);
    var sent := Sent(ready, key, TokenOf(gateway), script.relay);
    var (renewed, again) := Ensured(sent, login, repo, true, script.renewal);
    Concluded(key, replayable, script, ready, gateway, renewed, again)
  }

  // ------------------------------------------------------------------ what a trace may hold

  /** A relay attempt for the key after the event, refused or (when `any`) failed in any way. */
  predicate FailedBetween(trace: seq<Event>, key: Text, any: bool, i: int, j: int) {
    exists m :: 0 <= i < m < j <= |trace| && trace[m].Relayed? && trace[m].key == key
                && (Refused(trace[m].answer) || (any && TunnelFailed(trace[m].answer)))
  }

  /**
   What forbids a stampede: a provision for a key is not posted again within the floor unless the relay
   refused the key in between, nor within the shortest window unless the relay failed in between.
   */
  predicate Spaced(trace: seq<Event>) {
    forall i, j ::
      0 <= i < j < |trace| && trace[i].Provisioned? && trace[j].Posted? && trace[j].key == trace[i].key ==>
        && (trace[j].at >= trace[i].at + 30_000 || FailedBetween(trace, trace[i].key, false, i, j))
        && (trace[j].at >= trace[i].at + 60_000 || FailedBetween(trace, trace[i].key, true, i, j))
  }

  /** Every provision in the trace is at most as old as the stored record of its key. */
  predicate Recorded(s: State) {
    forall i :: 0 <= i < |s.trace| && s.trace[i].Provisioned? ==>
      && s.trace[i].key in s.records
      && s.trace[i].at <= s.records[s.trace[i].key].provisionedAt <= s.clock
      && s.records[s.trace[i].key].renewAfter >= s.records[s.trace[i].key].provisionedAt + SHORTEST_WINDOW_MS
  }

  predicate Consistent(s: State) {
    Recorded(s) && Spaced(s.trace)
  }

  /** Whether a provision for the key may be posted now, for all that was provisioned before. */
  predicate MayPost(s: State, key: Text) {
    forall i :: 0 <= i < |s.trace| && s.trace[i].Provisioned? && s.trace[i].key == key ==>
      && (s.clock >= s.trace[i].at + FLOOR_MS || FailedBetween(s.trace, key, false, i, |s.trace|))
      && (s.clock >= s.trace[i].at + SHORTEST_WINDOW_MS || FailedBetween(s.trace, key, true, i, |s.trace|))
  }

  lemma FailedBetweenGrows(trace: seq<Event>, event: Event, key: Text, any: bool, i: int, j: int, k: int)
    requires FailedBetween(trace, key, any, i, j) && j <= k <= |trace| + 1
    ensures FailedBetween(trace + [event], key, any, i, k)
  {
    var m :| 0 <= i < m < j <= |trace| && trace[m].Relayed? && trace[m].key == key
             && (Refused(trace[m].answer) || (any && TunnelFailed(trace[m].answer)));
    assert (trace + [event])[m] == trace[m];
  }

  /** An event that is not a forbidden post keeps the trace spaced. */
  lemma SpacedGrows(s: State, event: Event)
    requires Spaced(s.trace)
    requires event.Posted? ==> event.at == s.clock && MayPost(s, event.key)
    ensures Spaced(s.trace + [event])
  {
    var trace, all := s.trace, s.trace + [event];
    forall i, j | 0 <= i < j < |all| && all[i].Provisioned? && all[j].Posted? && all[j].key == all[i].key
      ensures all[j].at >= all[i].at + FLOOR_MS || FailedBetween(all, all[i].key, false, i, j)
      ensures all[j].at >= all[i].at + SHORTEST_WINDOW_MS || FailedBetween(all, all[i].key, true, i, j)
    {
      assert all[i] == trace[i];
      var key := all[i].key;
      if FailedBetween(trace, key, false, i, j) {
        FailedBetweenGrows(trace, event, key, false, i, j, j);
      }
      if FailedBetween(trace, key, true, i, j) {
        FailedBetweenGrows(trace, event, key, true, i, j, j);
      }
    }
  }

  /** Waiting, and events that are no provision, keep a permission to post. */
  lemma MayPostLater(s: State, event: Event, now: int, key: Text)
    requires MayPost(s, key) && now >= s.clock && !event.Provisioned?
    ensures MayPost(State(s.records, now, s.trace + [event]), key)
  {
    var n, all := |s.trace|, s.trace + [event];
    forall i | 0 <= i < |all| && all[i].Provisioned? && all[i].key == key
      ensures now >= all[i].at + FLOOR_MS || FailedBetween(all, key, false, i, n + 1)
      ensures now >= all[i].at + SHORTEST_WINDOW_MS || FailedBetween(all, key, true, i, n + 1)
    {
      assert all[i] == s.trace[i];
      if FailedBetween(s.trace, key, false, i, n) {
        FailedBetweenGrows(s.trace, event, key, false, i, n, n + 1);
      }
      if FailedBetween(s.trace, key, true, i, n) {
        FailedBetweenGrows(s.trace, event, key, true, i, n, n + 1);
      }
    }
  }

  lemma RecordedLater(s: State, event: Event, now: int)
    requires Recorded(s) && now >= s.clock && !event.Provisioned?
    ensures Recorded(State(s.records, now, s.trace + [event]))
  {
    assert forall i :: 0 <= i < |s.trace| ==> (s.trace + [event])[i] == s.trace[i];
  }

  lemma PostKeeps(s: State, key: Text, token: Text, elapsed: nat)
    requires Consistent(s) && MayPost(s, key)
    ensures Consistent(AfterPost(s, key, token, elapsed)) && MayPost(AfterPost(s, key, token, elapsed), key)
  {
    var event := Posted(key, s.clock, token);
    SpacedGrows(s, event);
    RecordedLater(s, event, s.clock + elapsed);
    MayPostLater(s, event, s.clock + elapsed, key);
  }

  lemma GrantKeeps(s: State, key: Text, record: Record)
    requires Consistent(s) && record.provisionedAt == s.clock && record.renewAfter >= s.clock + SHORTEST_WINDOW_MS
    ensures Consistent(AfterGrant(s, key, record))
  {
    var event := Provisioned(key, s.clock);
    SpacedGrows(s, event);
    assert forall i :: 0 <= i < |s.trace| ==> (s.trace + [event])[i] == s.trace[i];
  }

  lemma ProvisionKeeps(s: State, key: Text, token: Text, reply: Reply<Post>)
    requires Consistent(s) && MayPost(s, key)
    ensures var (after, result) := ProvisionStep(s, key, token, reply);
            && Consistent(after)
            && (result.Settled? && result.outcome.Ready? ==>
                  key in after.records && after.records[key] == result.outcome.record)
            && (result.TokenRejected? ==> MayPost(after, key))
  {
    PostKeeps(s, key, token, reply.elapsed);
    var posted := AfterPost(s, key, token, reply.elapsed);
    var result := Interpreted(reply.answer, posted.clock);
    if result.Settled? && result.outcome.Ready? {
      GrantKeeps(posted, key, result.outcome.record);
    }
  }

  /** A gateway that is ready is the stored one, whatever was asked of upstream to get it. */
  lemma EnsureKeeps(s: State, login: Text, repo: Text, force: bool, a: Attempts)
    requires Consistent(s) && (force ==> MayPost(s, RecordKey(login, repo)))
    ensures var (after, outcome) := Ensured(s, login, repo, force, a);
            && Consistent(after)
            && (outcome.Ready? ==>
                  RecordKey(login, repo) in after.records && after.records[RecordKey(login, repo)] == outcome.record)
  {
    var key := RecordKey(login, repo);
    if IsRelayRepoName(repo) && (force || !Fresh(s, key)) {
      assert MayPost(s, key);
      var asked := Waited(s, a.door.elapsed);
      WaitKeeps(s, a.door.elapsed, key);
      if a.door.answer.Token? {
        ProvisionKeeps(asked, key, Bearer(a.door.answer), a.post);
        var (posted, first) := ProvisionStep(asked, key, Bearer(a.door.answer), a.post);
        if first.TokenRejected? {
          WaitKeeps(posted, a.again.elapsed, key);
          ProvisionKeeps(Waited(posted, a.again.elapsed), key, Bearer(a.again.answer), a.second);
        }
      }
    }
  }

  lemma WaitKeeps(s: State, elapsed: nat, key: Text)
    requires Consistent(s) && MayPost(s, key)
    ensures Consistent(Waited(s, elapsed)) && MayPost(Waited(s, elapsed), key)
  {
  }

  lemma SendKeeps(s: State, key: Text, token: Text, reply: Reply<Relay>)
    requires Consistent(s)
    ensures Consistent(Sent(s, key, token, reply))
  {
    var now := s.clock + reply.elapsed;
    var event := Relayed(key, now, token, reply.answer);
    RecordedLater(s, event, now);
    SpacedGrows(s, event);
  }

  /** After a failure that forces a renewal, posting is allowed. */
  lemma FailureAllowsPost(s: State, key: Text, token: Text, reply: Reply<Relay>)
    requires Consistent(s) && key in s.records
    requires || Refused(reply.answer)
             || (TunnelFailed(reply.answer) && s.clock + reply.elapsed - s.records[key].provisionedAt >= FLOOR_MS)
    ensures MayPost(Sent(s, key, token, reply), key)
  {
    var now, n := s.clock + reply.elapsed, |s.trace|;
    var event := Relayed(key, now, token, reply.answer);
    var all := s.trace + [event];
    forall i | 0 <= i < |all| && all[i].Provisioned? && all[i].key == key
      ensures now >= all[i].at + FLOOR_MS || FailedBetween(all, key, false, i, n + 1)
      ensures FailedBetween(all, key, true, i, n + 1)
    {
      assert all[i] == s.trace[i] && all[n] == event;
    }
  }

  lemma CallKeeps(s: State, login: Text, repo: Text, replayable: bool, script: Script)
    requires Consistent(s)
    ensures Consistent(Called(s, login, repo, replayable, script).0)
  {
    var key := RecordKey(login, repo);
    EnsureKeeps(s, login, repo, false, script.first);
    var (ready, gateway) := Ensured(s, login, repo, false, script.first);
    if gateway.Ready? {
      var sent := Sent(ready, key, TokenOf(gateway), script.relay);
      SendKeeps(ready, key, TokenOf(gateway), script.relay);
      var answer := script.relay.answer;
      if Refused(answer) || (TunnelFailed(answer) && sent.clock - gateway.record.provisionedAt >= FLOOR_MS) {
        FailureAllowsPost(ready, key, TokenOf(gateway), script.relay);
        EnsureKeeps(sent, login, repo, true, script.renewal);
        var (renewed, again) := Ensured(sent, login, repo, true, script.renewal);
        SendKeeps(renewed, key, TokenOf(again), script.retry);
      }
    }
  }

  // ------------------------------------------------------------------ every run

  datatype Request = Request(login: Text, repo: Text, replayable: bool, script: Script)

  function Run(s: State, requests: seq<Request>): State {
    if requests == [] then s
    else
      var r := requests[|requests| - 1];
      Called(Run(s, requests[..|requests| - 1]), r.login, r.repo, r.replayable, r.script).0
  }

  /**
   Over every run of calls, whatever was stored before it and whatever upstream answers: no provision is
   posted again within 30 s of a success unless the relay refused that key since, and none within 60 s
   unless the relay failed that key since.
   */
  lemma {:induction false} RunsAreSpaced(stored: map<Text, Record>, start: int, requests: seq<Request>)
    ensures Spaced(Run(State(stored, start, []), requests).trace)
    ensures Consistent(Run(State(stored, start, []), requests))
  {
    if requests != [] {
      var front, r := requests[..|requests| - 1], requests[|requests| - 1];
      RunsAreSpaced(stored, start, front);
      CallKeeps(Run(State(stored, start, []), front), r.login, r.repo, r.replayable, r.script);
    }
  }

  // ------------------------------------------------------------------ one call

  function Relays(trace: seq<Event>): nat {
    if trace == [] then 0
    else Relays(trace[..|trace| - 1]) + if trace[|trace| - 1].Relayed? then 1 else 0
  }

  function Posts(trace: seq<Event>): nat {
    if trace == [] then 0
    else Posts(trace[..|trace| - 1]) + if trace[|trace| - 1].Posted? then 1 else 0
  }

  lemma CountsGrow(trace: seq<Event>, event: Event)
    ensures Relays(trace + [event]) == Relays(trace) + if event.Relayed? then 1 else 0
    ensures Posts(trace + [event]) == Posts(trace) + if event.Posted? then 1 else 0
  {
    assert (trace + [event])[..|trace|] == trace;
  }

  lemma ProvisionCounts(s: State, key: Text, token: Text, reply: Reply<Post>)
    ensures var after := ProvisionStep(s, key, token, reply).0;
            Relays(after.trace) == Relays(s.trace) && Posts(after.trace) == Posts(s.trace) + 1
  {
    var posted := AfterPost(s, key, token, reply.elapsed);
    CountsGrow(s.trace, Posted(key, s.clock, token));
    CountsGrow(posted.trace, Provisioned(key, posted.clock));
  }

  lemma EnsureCounts(s: State, login: Text, repo: Text, force: bool, a: Attempts)
    ensures var after := Ensured(s, login, repo, force, a).0;
            Relays(after.trace) == Relays(s.trace) && Posts(s.trace) <= Posts(after.trace) <= Posts(s.trace) + 2
  {
    var key := RecordKey(login, repo);
    var asked := Waited(s, a.door.elapsed);
    ProvisionCounts(asked, key, Bearer(a.door.answer), a.post);
    var (posted, first) := ProvisionStep(asked, key, Bearer(a.door.answer), a.post);
    if first.TokenRejected? {
      ProvisionCounts(Waited(posted, a.again.elapsed), key, Bearer(a.again.answer), a.second);
    }
  }

  lemma SendCounts(s: State, key: Text, token: Text, reply: Reply<Relay>)
    ensures Relays(Sent(s, key, token, reply).trace) == Relays(s.trace) + 1
    ensures Posts(Sent(s, key, token, reply).trace) == Posts(s.trace)
  {
    CountsGrow(s.trace, Relayed(key, s.clock + reply.elapsed, token, reply.answer));
  }

  // ------------------------------------------------------------------ when a gateway is ready

  /** An understood success. */
  predicate Granted(post: Post) {
    post.Answered? && 200 <= post.status < 300 && post.body.Some?
  }

  /** A token that was not accepted. */
  predicate Rejected(post: Post) {
    post.Answered? && post.status == 401
  }

  /** The answers that make a gateway: a token and a success, if need be after one fresh token. */
  predicate Grants(a: Attempts) {
    && a.door.answer.Token?
    && (|| Granted(a.post.answer)
        || (Rejected(a.post.answer) && a.again.answer.Token? && Granted(a.second.answer)))
  }

  /** A gateway is ready exactly for a name that keeps its route, with a fresh record or such answers. */
  lemma ReadyIff(s: State, login: Text, repo: Text, force: bool, a: Attempts)
    ensures Ensured(s, login, repo, force, a).1.Ready?
       <==> IsRelayRepoName(repo) && ((!force && Fresh(s, RecordKey(login, repo))) || Grants(a))
  {
    var key := RecordKey(login, repo);
    var asked := Waited(s, a.door.elapsed);
    InterpretedReady(asked, key, Bearer(a.door.answer), a.post);
    var posted := ProvisionStep(asked, key, Bearer(a.door.answer), a.post).0;
    InterpretedReady(Waited(posted, a.again.elapsed), key, Bearer(a.again.answer), a.second);
  }

  lemma InterpretedReady(s: State, key: Text, token: Text, reply: Reply<Post>)
    ensures var result := ProvisionStep(s, key, token, reply).1;
            && (result.TokenRejected? <==> Rejected(reply.answer))
            && (result.Settled? && result.outcome.Ready? <==> Granted(reply.answer))
  {
  }

  /** The answers of a post that leave this outcome and no gateway. */
  predicate PostMeans(post: Post, outcome: Outcome) {
    match outcome
    case Provisioning => post.TimedOut? || (post.Answered? && post.status == 409)
    case NoCloudRepo => post.Answered? && post.status == 404
    case NoCapacity => post.Answered? && (post.status == 429 || (post.status == 500 && post.saysNoCapacity))
    case Unavailable =>
      || post.ConnectionFailed?
      || (post.Answered? && 200 <= post.status < 300 && post.body.None?)
      || (post.Answered? && !(200 <= post.status < 300) && post.status !in {401, 404, 409, 429}
          && !(post.status == 500 && post.saysNoCapacity))
    case _ => false
  }

  predicate DoorMeans(door: Door, outcome: Outcome) {
    || (outcome.NoCloudToken? && door.NotFound?)
    || (outcome.Unavailable? && (door.NotConfigured? || door.DoorUnavailable?))
  }

  /** The answers that leave this outcome and no gateway: the last one asked for says which. */
  predicate Leaves(a: Attempts, outcome: Outcome) {
    if !a.door.answer.Token? then DoorMeans(a.door.answer, outcome)
    else if !Rejected(a.post.answer) then PostMeans(a.post.answer, outcome)
    else if !a.again.answer.Token? then DoorMeans(a.again.answer, outcome)
    else if !Rejected(a.second.answer) then PostMeans(a.second.answer, outcome)
    else outcome.Unavailable?
  }

  /** What the answers grant, and when the answer that does has arrived. */
  function GrantIn(a: Attempts): Grant
    requires Grants(a)
  {
    if Granted(a.post.answer) then a.post.answer.body.value else a.second.answer.body.value
  }

  function GrantedAt(s: State, a: Attempts): int {
    s.clock + a.door.elapsed + a.post.elapsed
    + if Granted(a.post.answer) then 0 else a.again.elapsed + a.second.elapsed
  }

  lemma ProvisionMeans(s: State, key: Text, token: Text, reply: Reply<Post>, outcome: Outcome)
    requires !outcome.Ready?
    ensures ProvisionStep(s, key, token, reply).1 == Settled(outcome) <==> PostMeans(reply.answer, outcome)
  {
  }

  /** Every outcome of a resolution, in the name, the stored record and the answers. */
  lemma EnsureOutcome(s: State, login: Text, repo: Text, force: bool, a: Attempts, outcome: Outcome)
    ensures var key := RecordKey(login, repo);
            var held := !force && Fresh(s, key);
            Ensured(s, login, repo, force, a).1 == outcome <==>
              if !IsRelayRepoName(repo) then outcome == Unavailable
              else if held then outcome == Ready(s.records[key])
              else if Grants(a) then outcome == Ready(Mint(GrantIn(a), GrantedAt(s, a)))
              else Leaves(a, outcome)
  {
    var key := RecordKey(login, repo);
    var asked := Waited(s, a.door.elapsed);
    var posted := ProvisionStep(asked, key, Bearer(a.door.answer), a.post).0;
    var reminted := Waited(posted, a.again.elapsed);
    InterpretedReady(asked, key, Bearer(a.door.answer), a.post);
    InterpretedReady(reminted, key, Bearer(a.again.answer), a.second);
    if !outcome.Ready? {
      ProvisionMeans(asked, key, Bearer(a.door.answer), a.post, outcome);
      ProvisionMeans(reminted, key, Bearer(a.again.answer), a.second, outcome);
    }
  }

  /** What a post that was answered leaves in the trace. */
  function PostTrace(key: Text, token: Text, at: int, reply: Reply<Post>): seq<Event> {
    [Posted(key, at, token)] + if Granted(reply.answer) then [Provisioned(key, at + reply.elapsed)] else []
  }

  /** All that a resolution sends, with which token and when, and the one record it may store. */
  lemma EnsureSends(s: State, login: Text, repo: Text, force: bool, a: Attempts)
    ensures var key := RecordKey(login, repo);
            var after := Ensured(s, login, repo, force, a).0;
            if !IsRelayRepoName(repo) || (!force && Fresh(s, key)) then after == s
            else if !a.door.answer.Token? then after == s.(clock := s.clock + a.door.elapsed)
            else
              var at := s.clock + a.door.elapsed;
              var later := at + a.post.elapsed + a.again.elapsed;
              && after.records
                 == (if Grants(a) then s.records[key := Mint(GrantIn(a), GrantedAt(s, a))] else s.records)
              && (if !Rejected(a.post.answer) then
                    && after.trace == s.trace + PostTrace(key, a.door.answer.token, at, a.post)
                    && after.clock == at + a.post.elapsed
                  else if !a.again.answer.Token? then
                    && after.trace == s.trace + PostTrace(key, a.door.answer.token, at, a.post)
                    && after.clock == later
                  else
                    && after.trace == s.trace + PostTrace(key, a.door.answer.token, at, a.post)
                                      + PostTrace(key, a.again.answer.token, later, a.second)
                    && after.clock == later + a.second.elapsed)
  {
    var key := RecordKey(login, repo);
    if IsRelayRepoName(repo) && (force || !Fresh(s, key)) && a.door.answer.Token? {
      var asked := Waited(s, a.door.elapsed);
      ProvisionSends(asked, key, a.door.answer.token, a.post);
      if Rejected(a.post.answer) && a.again.answer.Token? {
        var posted := ProvisionStep(asked, key, a.door.answer.token, a.post).0;
        ProvisionSends(Waited(posted, a.again.elapsed), key, a.again.answer.token, a.second);
      }
    }
  }

  lemma ProvisionSends(s: State, key: Text, token: Text, reply: Reply<Post>)
    ensures var (after, result) := ProvisionStep(s, key, token, reply);
            var now := s.clock + reply.elapsed;
            && after.clock == now && after.trace == s.trace + PostTrace(key, token, s.clock, reply)
            && after.records == (if Granted(reply.answer) then s.records[key := Mint(reply.answer.body.value, now)]
                                 else s.records)
            && (result.TokenRejected? <==> Rejected(reply.answer))
  {
    InterpretedReady(s, key, token, reply);
  }

  // ------------------------------------------------------------------ what a call comes to

  /** How old the record is, that the first attempt used, when that attempt is answered. */
  function Age(s: State, key: Text, script: Script): int {
    if Fresh(s, key) then s.clock + script.relay.elapsed - s.records[key].provisionedAt else script.relay.elapsed
  }

  /** The answers of a tunnel that cannot reach the gateway behind it. */
  const TUNNEL_FAILURES: set<Relay> := {Status(502), Status(503), Status(504)}

  /** The first attempt is made, and fails in a way that forces a renewal. */
  predicate Renews(s: State, login: Text, repo: Text, script: Script) {
    && IsRelayRepoName(repo) && (Fresh(s, RecordKey(login, repo)) || Grants(script.first))
    && (|| script.relay.answer in {NoAnswer, Status(401)}
        || (script.relay.answer in TUNNEL_FAILURES && Age(s, RecordKey(login, repo), script) >= 30_000))
  }

  /** The answer of a relay as the caller gets it. */
  predicate Gets(outcome: CallOutcome, answer: Relay) {
    match answer
    case NoAnswer => outcome == Unreached
    case Status(code) => outcome == Reached(code)
  }

  lemma FailuresAre(answer: Relay)
    ensures answer in TUNNEL_FAILURES <==> TunnelFailed(answer)
    ensures answer in {NoAnswer, Status(401)} <==> Refused(answer)
  {
  }

  lemma FirstAttempt(s: State, login: Text, repo: Text, script: Script)
    ensures var key := RecordKey(login, repo);
            var (ready, gateway) := Ensured(s, login, repo, false, script.first);
            && (gateway.Ready? <==> IsRelayRepoName(repo) && (Fresh(s, key) || Grants(script.first)))
            && (gateway.Ready? ==>
                  ready.clock + script.relay.elapsed - gateway.record.provisionedAt == Age(s, key, script))
  {
    var (ready, gateway) := Ensured(s, login, repo, false, script.first);
    EnsureOutcome(s, login, repo, false, script.first, gateway);
    EnsureSends(s, login, repo, false, script.first);
    ReadyIff(s, login, repo, false, script.first);
  }

  /**
   What a call comes to, in the stored record and the answers. The relay's first answer is returned
   unless it forces a renewal; after a renewal that is granted it is the retry's answer, but a call that
   must not be replayed is not repeated onto a gateway that slept.
   */
  lemma CallOutcomeIs(s: State, login: Text, repo: Text, replayable: bool, script: Script)
    ensures var key := RecordKey(login, repo);
            var outcome := Called(s, login, repo, replayable, script).1;
            var renews := Renews(s, login, repo, script);
            var asleep := script.relay.answer in TUNNEL_FAILURES && !replayable;
            && (IsRelayRepoName(repo) && (Fresh(s, key) || Grants(script.first)) && !renews ==>
                  Gets(outcome, script.relay.answer))
            && (renews && Grants(script.renewal) && !asleep ==> Gets(outcome, script.retry.answer))
            && (outcome.Asleep? <==> renews && Grants(script.renewal) && asleep)
  {
    var (ready, gateway) := Ensured(s, login, repo, false, script.first);
    FirstAttempt(s, login, repo, script);
    FailuresAre(script.relay.answer);
    ReadyIff(Sent(ready, RecordKey(login, repo), TokenOf(gateway), script.relay), login, repo, true, script.renewal);
  }

  /** A call stops without an answer exactly when a resolution it needs comes to that outcome. */
  lemma CallStopsIff(s: State, login: Text, repo: Text, replayable: bool, script: Script, outcome: Outcome)
    requires !outcome.Ready?
    ensures var key := RecordKey(login, repo);
            Called(s, login, repo, replayable, script).1 == Stopped(outcome) <==>
              || (!IsRelayRepoName(repo) && outcome == Unavailable)
              || (IsRelayRepoName(repo) && !Fresh(s, key) && Leaves(script.first, outcome))
              || (Renews(s, login, repo, script) && Leaves(script.renewal, outcome))
  {
    var (ready, gateway) := Ensured(s, login, repo, false, script.first);
    var sent := Sent(ready, RecordKey(login, repo), TokenOf(gateway), script.relay);
    FirstAttempt(s, login, repo, script);
    FailuresAre(script.relay.answer);
    ReadyIff(sent, login, repo, true, script.renewal);
    EnsureOutcome(s, login, repo, false, script.first, outcome);
    EnsureOutcome(sent, login, repo, true, script.renewal, outcome);
  }

  /**
   All that a call sends to the relay, and with which token: that of the fresh or granted record first,
   and, when it is sent again, that of the renewed one.
   */
  lemma CallRelays(s: State, login: Text, repo: Text, replayable: bool, script: Script)
    ensures var key := RecordKey(login, repo);
            var after := Called(s, login, repo, replayable, script).0;
            var ready := Ensured(s, login, repo, false, script.first).0;
            if !(IsRelayRepoName(repo) && (Fresh(s, key) || Grants(script.first))) then after == ready
            else
              var token := if Fresh(s, key) then s.records[key].token else GrantIn(script.first).token;
              var answered := ready.clock + script.relay.elapsed;
              var sent := State(ready.records, answered,
                                ready.trace + [Relayed(key, answered, token, script.relay.answer)]);
              var renewed := Ensured(sent, login, repo, true, script.renewal).0;
              if !Renews(s, login, repo, script) then after == sent
              else if !Grants(script.renewal) || (script.relay.answer in TUNNEL_FAILURES && !replayable) then
                after == renewed
              else
                var now := renewed.clock + script.retry.elapsed;
                after == State(renewed.records, now,
                               renewed.trace
                               + [Relayed(key, now, GrantIn(script.renewal).token, script.retry.answer)])
  {
    var (ready, gateway) := Ensured(s, login, repo, false, script.first);
    FirstAttempt(s, login, repo, script);
    FailuresAre(script.relay.answer);
    EnsureOutcome(s, login, repo, false, script.first, gateway);
    var sent := Sent(ready, RecordKey(login, repo), TokenOf(gateway), script.relay);
    ReadyIff(sent, login, repo, true, script.renewal);
    EnsureOutcome(sent, login, repo, true, script.renewal, Ensured(sent, login, repo, true, script.renewal).1);
  }

  /** Whether a first answer calls for a second attempt, once the gateway is renewed. */
  predicate Retries(gateway: Record, replayable: bool, answer: Relay, now: int) {
    || Refused(answer)
    || (TunnelFailed(answer) && replayable && now - gateway.provisionedAt >= FLOOR_MS)
  }

  lemma ConcludedSends(
    s: State, key: Text, replayable: bool, script: Script,
    ready: State, gateway: Outcome, renewed: State, again: Outcome)
    requires Relays(ready.trace) == Relays(s.trace)
    requires Posts(s.trace) <= Posts(ready.trace) <= Posts(s.trace) + 2
    requires var sent := Sent(ready, key, TokenOf(gateway), script.relay).trace;
             Relays(renewed.trace) == Relays(sent) && Posts(sent) <= Posts(renewed.trace) <= Posts(sent) + 2
    ensures var after := Concluded(key, replayable, script, ready, gateway, renewed, again).0;
            && Relays(s.trace) <= Relays(after.trace) <= Relays(s.trace) + 2
            && Posts(s.trace) <= Posts(after.trace) <= Posts(s.trace) + 4
            && (Relays(after.trace) == Relays(s.trace) + 2 <==>
                  && gateway.Ready? && again.Ready?
                  && Retries(gateway.record, replayable, script.relay.answer, ready.clock + script.relay.elapsed))
  {
    SendCounts(ready, key, TokenOf(gateway), script.relay);
    SendCounts(renewed, key, TokenOf(again), script.retry);
  }

  /**
   One call relays at most twice and posts at most four provisions, whatever upstream answers; it relays
   again exactly when the first answer calls for it and the gateway is renewed.
   */
  lemma CallSends(s: State, login: Text, repo: Text, replayable: bool, script: Script)
    ensures var after := Called(s, login, repo, replayable, script).0;
            && Relays(s.trace) <= Relays(after.trace) <= Relays(s.trace) + 2
            && Posts(s.trace) <= Posts(after.trace) <= Posts(s.trace) + 4
    ensures var after := Called(s, login, repo, replayable, script).0;
            var (ready, gateway) := Ensured(s, login, repo, false, script.first);
            var sent := Sent(ready, RecordKey(login, repo), TokenOf(gateway), script.relay);
            Relays(after.trace) == Relays(s.trace) + 2 <==>
              && gateway.Ready? && Grants(script.renewal)
              && Retries(gateway.record, replayable, script.relay.answer, sent.clock)
  {
    var key := RecordKey(login, repo);
    var (ready, gateway) := Ensured(s, login, repo, false, script.first);
    var sent := Sent(ready, key, TokenOf(gateway), script.relay);
    var (renewed, again) := Ensured(sent, login, repo, true, script.renewal);
    EnsureCounts(s, login, repo, false, script.first);
    EnsureCounts(sent, login, repo, true, script.renewal);
    ReadyIff(sent, login, repo, true, script.renewal);
    ConcludedSends(s, key, replayable, script, ready, gateway, renewed, again);
  }

  /**
   A call that must not be replayed is never sent again after a tunnel failure. It is sent again, all
   the same, when the first attempt was refused with 401 or got no answer, a deadline that passed
   included, and the gateway could be renewed.
   */
  lemma NonReplayableSentTwiceIff(s: State, login: Text, repo: Text, script: Script)
    ensures var after := Called(s, login, repo, false, script).0;
            Relays(after.trace) == Relays(s.trace) + 2 <==>
              && IsRelayRepoName(repo)
              && (Fresh(s, RecordKey(login, repo)) || Grants(script.first))
              && Refused(script.relay.answer)
              && Grants(script.renewal)
  {
    CallSends(s, login, repo, false, script);
    ReadyIff(s, login, repo, false, script.first);
  }

  /** The failing case: no answer within the deadline, a renewal, and the call is relayed once more. */
  lemma PassedDeadlineSendsTwice(login: Text, grant: Grant)
    ensures var granted := Attempts(
              Reply(0, Token([])), Reply(0, Answered(200, false, Some(grant))),
              Reply(0, NotFound), Reply(0, TimedOut));
            var script := Script(granted, Reply(20_000, NoAnswer), granted, Reply(0, Status(200)));
            Relays(Called(State(map[], 0, []), login, [111, SLASH, 114], false, script).0.trace) == 2
  {
    var granted := Attempts(
      Reply(0, Token([])), Reply(0, Answered(200, false, Some(grant))), Reply(0, NotFound), Reply(0, TimedOut));
    var script := Script(granted, Reply(20_000, NoAnswer), granted, Reply(0, Status(200)));
    var repo: Text := [111, SLASH, 114];
    UntilUnitIs([111], SLASH, [114]);
    assert repo == [111] + [SLASH] + [114];
    assert repo[..1] == [111] && repo[2..] == [114];
    NonReplayableSentTwiceIff(State(map[], 0, []), login, repo, script);
  }

  /** What is returned is what the relay answered last, and only a call that must not be replayed sleeps. */
  lemma OutcomeIsLastAnswer(s: State, login: Text, repo: Text, replayable: bool, script: Script)
    ensures var (after, outcome) := Called(s, login, repo, replayable, script);
            && (outcome.Reached? || outcome.Unreached? ==>
                  after.trace != [] && after.trace[|after.trace| - 1].Relayed?
                  && Gets(outcome, after.trace[|after.trace| - 1].answer)
                  && after.trace[|after.trace| - 1].key == RecordKey(login, repo))
            && (outcome.Asleep? ==> !replayable && TunnelFailed(script.relay.answer))
            && (outcome.Stopped? ==> !outcome.outcome.Ready?)
  {
  }

  lemma EnsureTouchesOneRecord(s: State, login: Text, repo: Text, force: bool, a: Attempts, key: Text)
    requires key != RecordKey(login, repo)
    ensures var after := Ensured(s, login, repo, force, a).0;
            (key in after.records <==> key in s.records)
            && (key in s.records ==> after.records[key] == s.records[key])
  {
  }

  /** A call for one account and repository leaves every other one's record as it was. */
  lemma CallTouchesOneRecord(
    s: State, login: Text, repo: Text, replayable: bool, script: Script, otherLogin: Text, otherRepo: Text)
    requires IsRelayRepoName(repo) && IsRelayRepoName(otherRepo)
    requires login != otherLogin || repo != otherRepo
    ensures var after := Called(s, login, repo, replayable, script).0;
            var key := RecordKey(otherLogin, otherRepo);
            (key in after.records <==> key in s.records)
            && (key in s.records ==> after.records[key] == s.records[key])
  {
    var key := RecordKey(otherLogin, otherRepo);
    if key == RecordKey(login, repo) {
      RecordKeysDiffer(login, repo, otherLogin, otherRepo);
    }
    EnsureTouchesOneRecord(s, login, repo, false, script.first, key);
    var (ready, gateway) := Ensured(s, login, repo, false, script.first);
    var sent := Sent(ready, RecordKey(login, repo), TokenOf(gateway), script.relay);
    EnsureTouchesOneRecord(sent, login, repo, true, script.renewal, key);
  }

  /** With a name that could leave its route, nothing is sent anywhere. */
  lemma OtherNamesSendNothing(s: State, login: Text, repo: Text, replayable: bool, script: Script)
    requires !IsRelayRepoName(repo)
    ensures Called(s, login, repo, replayable, script) == (s, Stopped(Unavailable))
  {
  }

  // ------------------------------------------------------------------ the worker

  class Worker {
    var records: map<Text, Record>
    var clock: int
    ghost var trace: seq<Event>

    ghost function Now(): State
      reads this
    {
      State(records, clock, trace)
    }

    constructor (stored: map<Text, Record>, start: int)
      ensures Now() == State(stored, start, [])
    {
      records, clock, trace := stored, start, [];
    }

    method ProvisionGateway(login: Text, repo: Text, token: Text, reply: Reply<Post>) returns (result: Provision)
      modifies this
      ensures (Now(), result) == ProvisionStep(old(Now()), RecordKey(login, repo), token, reply)
    {
      trace := trace + [Posted(RecordKey(login, repo), clock, token)];
      clock := clock + reply.elapsed;
      var body: Option<Grant> := None;
      match reply.answer {
        case TimedOut => return Settled(Provisioning);
        case ConnectionFailed => return Settled(Unavailable);
        case Answered(status, saysNoCapacity, answered) =>
          if status == 401 {
            return TokenRejected;
          }
          if status == 409 {
            return Settled(Provisioning);
          }
          if status == 404 {
            return Settled(NoCloudRepo);
          }
          if status == 429 {
            return Settled(NoCapacity);
          }
          if status < 200 || 300 <= status {
            return Settled(if status == 500 && saysNoCapacity then NoCapacity else Unavailable);
          }
          body := answered;
      }
      if body.None? {
        return Settled(Unavailable);
      }
      var record := Mint(body.value, clock);
      records := records[RecordKey(login, repo) := record];
      trace := trace + [Provisioned(RecordKey(login, repo), clock)];
      result := Settled(Ready(record));
    }

    method EnsureGateway(login: Text, repo: Text, force: bool, a: Attempts) returns (outcome: Outcome)
      modifies this
      ensures (Now(), outcome) == Ensured(old(Now()), login, repo, force, a)
    {
      if !IsRelayRepoName(repo) {
        return Unavailable;
      }
      if !force {
        var key := RecordKey(login, repo);
        if key in records && clock < records[key].renewAfter {
          return Ready(records[key]);
        }
      }
      clock := clock + a.door.elapsed;
      if !a.door.answer.Token? {
        return DoorOutcome(a.door.answer);
      }
      var first := ProvisionGateway(login, repo, a.door.answer.token, a.post);
      if !first.TokenRejected? {
        return first.outcome;
      }
      clock := clock + a.again.elapsed;
      if !a.again.answer.Token? {
        return DoorOutcome(a.again.answer);
      }
      var second := ProvisionGateway(login, repo, a.again.answer.token, a.second);
      outcome := if second.TokenRejected? then Unavailable else second.outcome;
    }

    method Attempt(login: Text, repo: Text, token: Text, reply: Reply<Relay>) returns (answer: Relay)
      modifies this
      ensures Now() == Sent(old(Now()), RecordKey(login, repo), token, reply) && answer == reply.answer
    {
      clock := clock + reply.elapsed;
      trace := trace + [Relayed(RecordKey(login, repo), clock, token, reply.answer)];
      answer := reply.answer;
    }

    method CallGateway(login: Text, repo: Text, replayable: bool, script: Script) returns (outcome: CallOutcome)
      modifies this
      ensures (Now(), outcome) == Called(old(Now()), login, repo, replayable, script)
      ensures old(Consistent(Now())) ==> Consistent(Now())
    {
      CallKeepsIf(Now(), login, repo, replayable, script);
      var gateway := EnsureGateway(login, repo, false, script.first);
      if !gateway.Ready? {
        return Stopped(gateway);
      }
      var response := Attempt(login, repo, gateway.record.token, script.relay);
      var tunnelFailed := response.Status? && IsTunnelFailure(response.code);
      if response.NoAnswer? || response.code == 401 || tunnelFailed {
        if tunnelFailed && clock - gateway.record.provisionedAt < FLOOR_MS {
          return Reached(response.code);
        }
        var renewed := EnsureGateway(login, repo, true, script.renewal);
        if !renewed.Ready? {
          return Stopped(renewed);
        }
        if tunnelFailed && !replayable {
          return Asleep;
        }
        response := Attempt(login, repo, renewed.record.token, script.retry);
      }
      outcome := if response.NoAnswer? then Unreached else Reached(response.code);
    }
  }

  lemma CallKeepsIf(s: State, login: Text, repo: Text, replayable: bool, script: Script)
    ensures Consistent(s) ==> Consistent(Called(s, login, repo, replayable, script).0)
  {
    if Consistent(s) {
      CallKeeps(s, login, repo, replayable, script);
    }
  }
}
