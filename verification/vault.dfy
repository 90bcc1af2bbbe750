/**
 * The member vault: capturing OAuth token pairs on the callback, renewing the
 * ones that expire within the next seven days, replaying the stored access
 * tokens to add every member to a guild, and the admin password gate in front
 * of the administrative handlers.
 *
 * Every HTTP call to Discord is an input: the token endpoint's reply, the
 * `/users/@me` payload, and a per-record reply for the refresh and guild-join
 * requests. Time is integer seconds, read once per handler as `now`.
 */
module Vault {
  import opened Wrappers
  import opened Database

  /** `timedelta(days=7)`: how far ahead a renewal batch looks. */
  const RenewalWindow: int := 7 * 24 * 60 * 60

  /**
   * `datetime.min` and `datetime.max` as whole seconds from the Unix epoch.
   * Adding a `timedelta` that leaves this range raises `OverflowError`.
   */
  const DatetimeMin: int := -62135596800
  const DatetimeMax: int := 253402300799

  /** A timestamp Python's `datetime` can represent. */
  predicate InDatetimeRange(t: int) {
    DatetimeMin <= t <= DatetimeMax
  }

  const StatusOk: int := 200
  const StatusCreated: int := 201
  const StatusNoContent: int := 204

  /** The JSON body of a token-endpoint reply; a field is None when its key is absent. */
  datatype TokenBody = TokenBody(accessToken: Option<string>, refreshToken: Option<string>, expiresIn: Option<int>)

  /**
   * What a POST to the token endpoint comes back with: the request raised
   * (connection error, timeout), or a status code and a body that parsed as
   * JSON (Some) or did not (None).
   */
  datatype TokenReply =
    | TokenRaised
    | TokenResponse(status: int, body: Option<TokenBody>)

  /** A reply from which all three fields can be read without an exception. */
  predicate IsFullGrant(reply: TokenReply) {
    && reply.TokenResponse?
    && reply.status == StatusOk
    && reply.body.Some?
    && reply.body.value.accessToken.Some?
    && reply.body.value.refreshToken.Some?
    && reply.body.value.expiresIn.Some?
  }

  /**
   * A reply that renews a record: all three fields readable and
   * `now + expires_in` representable, so no exception interrupts the writes.
   */
  predicate Renews(reply: TokenReply, now: int) {
    IsFullGrant(reply) && InDatetimeRange(now + reply.body.value.expiresIn.value)
  }

  /**
   * The `/users/@me` payload. `avatar` is doubly optional: the key may be
   * absent (outer None) or hold JSON null (Some(None)).
   */
  datatype UserInfo = UserInfo(id: Option<string>, username: Option<string>, avatar: Option<Option<string>>)

  /** The callback's answer: the 400 page, an uncaught exception (500), or the success page. */
  datatype CallbackResponse = VerifyFailed | ServerError | Verified(user: UserInfo)

  /** A callback's response together with the table it leaves behind. */
  datatype Capture = Capture(response: CallbackResponse, members: map<string, Member>)

  /**
   * The `/callback` handler on a table `ms`. `user` is None when the
   * `/users/@me` request raised or its body was not JSON. Any exception
   * before the commit (a missing key, an expiry outside the datetime range)
   * leaves the table as it was, since the session is closed without
   * committing.
   */
  function CaptureMember(ms: map<string, Member>, now: int, grant: TokenReply, user: Option<UserInfo>, clientHost: string): (c: Capture)
    // a non-200 token exchange writes nothing and shows the failure page
    ensures grant.TokenResponse? && grant.status != StatusOk ==> c == Capture(VerifyFailed, ms)
    // a token request that raised is an uncaught exception, and writes nothing
    ensures grant.TokenRaised? ==> c == Capture(ServerError, ms)
    // a full 200 grant for a user with an id, a username, a representable expiry
    // and (for a first capture) an avatar key is captured
    ensures IsFullGrant(grant) && user.Some? && user.value.id.Some? && user.value.username.Some?
            && InDatetimeRange(now + grant.body.value.expiresIn.value)
            && (user.value.id.value in ms || user.value.avatar.Some?)
            ==> c.response == Verified(user.value)
    // only a successful capture writes
    ensures !c.response.Verified? ==> c.members == ms
    ensures c.response.Verified? ==>
      && IsFullGrant(grant) && user.Some? && user.value.id.Some? && user.value.username.Some?
      && InDatetimeRange(now + grant.body.value.expiresIn.value)
      && c.response.user == user.value
    // a successful capture leaves exactly one record under the user's id, with the new grant
    ensures c.response.Verified? ==>
      var uid := user.value.id.value;
      var body := grant.body.value;
      && c.members.Keys == ms.Keys + {uid}
      && c.members[uid].accessToken == body.accessToken.value
      && c.members[uid].refreshToken == body.refreshToken.value
      && c.members[uid].expiresAt == now + body.expiresIn.value
      && c.members[uid].username == user.value.username.value
      && c.members[uid].ipAddress == clientHost
      && forall k :: k in ms && k != uid ==> c.members[k] == ms[k]
    // re-capture overwrites five fields in place; avatar, discriminator and last_updated are kept
    ensures c.response.Verified? && user.value.id.value in ms ==>
      var old_ := ms[user.value.id.value];
      var new_ := c.members[user.value.id.value];
      new_ == old_.(accessToken := new_.accessToken, refreshToken := new_.refreshToken,
                    expiresAt := new_.expiresAt, username := new_.username, ipAddress := new_.ipAddress)
    // a first capture inserts a row stamped with the insert time
    ensures c.response.Verified? && user.value.id.value !in ms ==>
      && user.value.avatar.Some?
      && c.members[user.value.id.value].avatar == user.value.avatar.value
      && c.members[user.value.id.value].discriminator == None
      && c.members[user.value.id.value].lastUpdated == now
    // the unique constraint on user_id is kept
    ensures UniqueUserIds(ms) ==> UniqueUserIds(c.members)
  {
    if grant.TokenRaised? then Capture(ServerError, ms)
    else if grant.status != StatusOk then Capture(VerifyFailed, ms)
    else if !IsFullGrant(grant) then Capture(ServerError, ms)
    else if user.None? || user.value.id.None? then Capture(ServerError, ms)
    else if !InDatetimeRange(now + grant.body.value.expiresIn.value) then Capture(ServerError, ms)
    else
      var body := grant.body.value;
      var info := user.value;
      var uid := info.id.value;
      var expiry := now + body.expiresIn.value;
      if uid in ms then
        if info.username.None? then Capture(ServerError, ms)
        else
          var updated := ms[uid].(accessToken := body.accessToken.value,
                                  refreshToken := body.refreshToken.value,
                                  expiresAt := expiry,
                                  username := info.username.value,
                                  ipAddress := clientHost);
          Capture(Verified(info), ms[uid := updated])
      else if info.username.None? || info.avatar.None? then Capture(ServerError, ms)
      else
        var inserted := Member(uid, info.username.value, None, info.avatar.value,
                               body.accessToken.value, body.refreshToken.value,
                               expiry, clientHost, now);
        Capture(Verified(info), ms[uid := inserted])
  }

  /**
   * Capturing the same user twice keeps a single record for them, whose
   * token pair, expiry and username come from the second capture.
   */
  lemma RecaptureKeepsOneRecord(ms: map<string, Member>, now1: int, grant1: TokenReply, user1: Option<UserInfo>, host1: string,
                                now2: int, grant2: TokenReply, user2: Option<UserInfo>, host2: string)
    requires CaptureMember(ms, now1, grant1, user1, host1).response.Verified?
    requires CaptureMember(CaptureMember(ms, now1, grant1, user1, host1).members, now2, grant2, user2, host2).response.Verified?
    requires user1.value.id == user2.value.id
    ensures
      var first := CaptureMember(ms, now1, grant1, user1, host1).members;
      var second := CaptureMember(first, now2, grant2, user2, host2).members;
      var uid := user2.value.id.value;
      && second.Keys == first.Keys == ms.Keys + {uid}
      && |second| == |first|
      && second[uid].accessToken == grant2.body.value.accessToken.value
      && second[uid].refreshToken == grant2.body.value.refreshToken.value
      && second[uid].expiresAt == now2 + grant2.body.value.expiresIn.value
      && second[uid].username == user2.value.username.value
      && second[uid].avatar == first[uid].avatar
      && second[uid].lastUpdated == first[uid].lastUpdated
  {
  }

  /**
   * A grant of tokens "A1" and "R1" valid for 604800 seconds, captured at
   * time `t` from address 1.2.3.4, is stored with `expires_at = t + 604800`.
   */
  lemma CaptureScenario(ms: map<string, Member>, t: int, user: UserInfo)
    requires user.id.Some? && user.username.Some? && (user.id.value in ms || user.avatar.Some?)
    requires InDatetimeRange(t + 604800)
    ensures
      var c := CaptureMember(ms, t, TokenResponse(StatusOk, Some(TokenBody(Some("A1"), Some("R1"), Some(604800)))),
                             Some(user), "1.2.3.4");
      && c.response == Verified(user)
      && c.members[user.id.value].accessToken == "A1"
      && c.members[user.id.value].refreshToken == "R1"
      && c.members[user.id.value].expiresAt == t + 604800
      && c.members[user.id.value].ipAddress == "1.2.3.4"
  {
  }

  /**
   * One iteration of the renewal loop on one record: the assignments of the
   * success branch, in the source's order. A body missing `refresh_token`
   * raises after `access_token` has been written; a body missing
   * `expires_in`, or one whose expiry leaves the datetime range, raises after
   * both tokens have been written. The batch's commit keeps those partial
   * writes.
   */
  function RenewMember(m: Member, now: int, reply: TokenReply): (r: Member)
    // a full grant replaces both tokens and restamps the record from the batch clock
    ensures Renews(reply, now) ==>
      && r.accessToken == reply.body.value.accessToken.value
      && r.refreshToken == reply.body.value.refreshToken.value
      && r.expiresAt == now + reply.body.value.expiresIn.value
      && r.lastUpdated == now
    // any failure keeps the expiry and the timestamp
    ensures !Renews(reply, now) ==> r.expiresAt == m.expiresAt && r.lastUpdated == m.lastUpdated
    // a raised request, a non-200 status, an unparsable body or a missing access token change nothing
    ensures reply.TokenRaised? || reply.status != StatusOk || reply.body.None? || reply.body.value.accessToken.None?
            ==> r == m
    // only the token pair, the expiry and the timestamp can ever change
    ensures r == m.(accessToken := r.accessToken, refreshToken := r.refreshToken,
                    expiresAt := r.expiresAt, lastUpdated := r.lastUpdated)
  {
    if reply.TokenRaised? || reply.status != StatusOk || reply.body.None? then m
    else
      var body := reply.body.value;
      if body.accessToken.None? then m
      else
        var m1 := m.(accessToken := body.accessToken.value);
        if body.refreshToken.None? then m1
        else
          var m2 := m1.(refreshToken := body.refreshToken.value);
          if body.expiresIn.None? || !InDatetimeRange(now + body.expiresIn.value) then m2
          else m2.(expiresAt := now + body.expiresIn.value, lastUpdated := now)
  }

  /** The records a batch started at `now` selects: those expiring strictly before `now` plus seven days. */
  function ExpiringSoon(ms: map<string, Member>, now: int): set<string> {
    set k | k in ms && ms[k].expiresAt < now + RenewalWindow
  }

  /** Selected records whose refresh succeeded. */
  function RefreshedIds(ms: map<string, Member>, now: int, exchange: Member -> TokenReply): set<string> {
    set k | k in ExpiringSoon(ms, now) && Renews(exchange(ms[k]), now)
  }

  /** Selected records whose refresh raised or was refused. */
  function FailedIds(ms: map<string, Member>, now: int, exchange: Member -> TokenReply): set<string> {
    set k | k in ExpiringSoon(ms, now) && !Renews(exchange(ms[k]), now)
  }

  /** The table once the records in `done` have been through the renewal loop. */
  function RenewOnly(ms: map<string, Member>, now: int, exchange: Member -> TokenReply, done: set<string>): map<string, Member> {
    map k | k in ms :: if k in done then RenewMember(ms[k], now, exchange(ms[k])) else ms[k]
  }

  /** The table after a renewal batch: every selected record renewed on its own reply, the rest as they were. */
  function RenewedStore(ms: map<string, Member>, now: int, exchange: Member -> TokenReply): map<string, Member> {
    RenewOnly(ms, now, exchange, ExpiringSoon(ms, now))
  }

  /**
   * One turn of the renewal loop, with `selected - pending` already settled:
   * the record about to be renewed is still as it was, and writing it
   * settles it.
   */
  lemma RenewStep(ms: map<string, Member>, now: int, exchange: Member -> TokenReply,
                  selected: set<string>, pending: set<string>, id: string)
    requires id in ms && id in pending && id in selected
    ensures RenewOnly(ms, now, exchange, selected - pending)[id] == ms[id]
    ensures RenewOnly(ms, now, exchange, selected - pending)[id := RenewMember(ms[id], now, exchange(ms[id]))]
            == RenewOnly(ms, now, exchange, selected - (pending - {id}))
  {
  }

  /** One turn of the renewal loop adds the record to exactly one of the two counters. */
  lemma CountStep(ms: map<string, Member>, now: int, exchange: Member -> TokenReply, pending: set<string>, id: string)
    requires id in pending && id in ExpiringSoon(ms, now)
    ensures |RefreshedIds(ms, now, exchange) - (pending - {id})|
            == |RefreshedIds(ms, now, exchange) - pending| + (if Renews(exchange(ms[id]), now) then 1 else 0)
    ensures |FailedIds(ms, now, exchange) - (pending - {id})|
            == |FailedIds(ms, now, exchange) - pending| + (if Renews(exchange(ms[id]), now) then 0 else 1)
  {
    SettledCount(RefreshedIds(ms, now, exchange), pending, id);
    SettledCount(FailedIds(ms, now, exchange), pending, id);
  }

  /** The window is strict: six days ahead is selected, exactly seven or eight days ahead is not. */
  lemma WindowPolicy(ms: map<string, Member>, now: int, k: string)
    requires k in ms
    ensures ms[k].expiresAt == now + 6 * 24 * 60 * 60 ==> k in ExpiringSoon(ms, now)
    ensures ms[k].expiresAt == now + RenewalWindow ==> k !in ExpiringSoon(ms, now)
    ensures ms[k].expiresAt == now + 8 * 24 * 60 * 60 ==> k !in ExpiringSoon(ms, now)
  {
  }

  /** Every selected record is either refreshed or failed, never both, so the two counters add up to the selection. */
  lemma CountsPartitionSelection(ms: map<string, Member>, now: int, exchange: Member -> TokenReply)
    ensures RefreshedIds(ms, now, exchange) !! FailedIds(ms, now, exchange)
    ensures RefreshedIds(ms, now, exchange) + FailedIds(ms, now, exchange) == ExpiringSoon(ms, now)
    ensures |RefreshedIds(ms, now, exchange)| + |FailedIds(ms, now, exchange)| == |ExpiringSoon(ms, now)|
  {
  }

  /**
   * Partial-failure isolation: what a batch does to a record depends on that
   * record and its own reply only, whatever happens to the other records.
   * Records outside the window are untouched, and a failed request or a
   * non-200 status leaves the record exactly as it was.
   */
  lemma RenewalIsolation(ms: map<string, Member>, now: int, exchange: Member -> TokenReply, k: string)
    requires k in ms
    ensures RenewedStore(ms, now, exchange).Keys == ms.Keys
    ensures RenewedStore(ms, now, exchange)[k] == RenewedStore(map[k := ms[k]], now, exchange)[k]
    ensures k !in ExpiringSoon(ms, now) ==> RenewedStore(ms, now, exchange)[k] == ms[k]
    ensures exchange(ms[k]).TokenRaised? || exchange(ms[k]).status != StatusOk ==> RenewedStore(ms, now, exchange)[k] == ms[k]
    ensures k in RefreshedIds(ms, now, exchange) ==>
      var body := exchange(ms[k]).body.value;
      && RenewedStore(ms, now, exchange)[k].accessToken == body.accessToken.value
      && RenewedStore(ms, now, exchange)[k].refreshToken == body.refreshToken.value
      && RenewedStore(ms, now, exchange)[k].expiresAt == now + body.expiresIn.value
      && RenewedStore(ms, now, exchange)[k].lastUpdated == now
  {
  }

  /** Renewal never changes a user id, so the unique constraint is kept. */
  lemma RenewalKeepsUniqueIds(ms: map<string, Member>, now: int, exchange: Member -> TokenReply)
    requires UniqueUserIds(ms)
    ensures UniqueUserIds(RenewedStore(ms, now, exchange))
  {
  }

  /**
   * The partial write, exhibited: a 200 reply without `refresh_token` counts
   * the record as failed, yet its access token has already been replaced
   * while the old refresh token, expiry and timestamp stay.
   */
  lemma PartialWriteOnMissingRefreshToken(m: Member, now: int, newAccess: string, lifetime: int)
    requires newAccess != m.accessToken
    ensures
      var reply := TokenResponse(StatusOk, Some(TokenBody(Some(newAccess), None, Some(lifetime))));
      var r := RenewMember(m, now, reply);
      && !Renews(reply, now)
      && r != m
      && r.accessToken == newAccess
      && r.refreshToken == m.refreshToken
      && r.expiresAt == m.expiresAt
  {
  }

  /**
   * The second partial write, exhibited: a 200 reply carrying both tokens
   * but no `expires_in`, or one whose expiry leaves the datetime range,
   * counts the record as failed, yet both tokens have been replaced while
   * the expiry and timestamp stay.
   */
  lemma PartialWriteWithoutExpiry(m: Member, now: int, newAccess: string, newRefresh: string, lifetime: Option<int>)
    requires lifetime.None? || !InDatetimeRange(now + lifetime.value)
    ensures
      var reply := TokenResponse(StatusOk, Some(TokenBody(Some(newAccess), Some(newRefresh), lifetime)));
      && !Renews(reply, now)
      && RenewMember(m, now, reply) == m.(accessToken := newAccess, refreshToken := newRefresh)
  {
  }

  /**
   * Bookkeeping for the batch loops: settling one pending record adds one
   * to the settled part of `s` exactly when the record belongs to `s`.
   */
  lemma SettledCount<T>(s: set<T>, pending: set<T>, id: T)
    requires id in pending
    ensures |s - (pending - {id})| == |s - pending| + (if id in s then 1 else 0)
  {
    if id in s {
      assert s - (pending - {id}) == (s - pending) + {id};
    } else {
      assert s - (pending - {id}) == s - pending;
    }
  }

  /** Once nothing is pending, the settled part of `s` is all of `s`. */
  lemma NothingPending<T>(s: set<T>, pending: set<T>)
    requires pending == {}
    ensures s - pending == s
  {
  }

  /** What a PUT to the guild-members endpoint comes back with. */
  datatype ReplayReply = ReplayRaised | ReplayStatus(status: int)

  /** 201 (added) and 204 (already a member) count as restored; any other status or an exception as failed. */
  predicate IsRestored(reply: ReplayReply) {
    reply.ReplayStatus? && (reply.status == StatusCreated || reply.status == StatusNoContent)
  }

  function RestoredIds(ms: map<string, Member>, guildId: string, put: (string, Member) -> ReplayReply): set<string> {
    set k | k in ms && IsRestored(put(guildId, ms[k]))
  }

  function ReplayFailedIds(ms: map<string, Member>, guildId: string, put: (string, Member) -> ReplayReply): set<string> {
    set k | k in ms && !IsRestored(put(guildId, ms[k]))
  }

  datatype PanelResponse = PanelUnauthorized | Dashboard(rows: set<Member>, count: nat)
  datatype SyncResponse = SyncUnauthorized | SyncInitiated
  datatype RestoreResponse = RestoreUnauthorized | Restored(restored: nat, failed: nat)

  /** The `members` table behind one database session. */
  class MemberStore {
    var members: map<string, Member>

    ghost predicate Valid()
      reads this
    {
      UniqueUserIds(members)
    }

    constructor (initial: map<string, Member>)
      requires UniqueUserIds(initial)
      ensures Valid() && members == initial
    {
      members := initial;
    }

    /** `GET /callback`: exchange the code (`grant`), fetch the user (`user`), upsert by user id. */
    method Callback(now: int, grant: TokenReply, user: Option<UserInfo>, clientHost: string) returns (response: CallbackResponse)
      requires Valid()
      modifies this
      ensures Valid()
      ensures Capture(response, members) == CaptureMember(old(members), now, grant, user, clientHost)
    {
      if grant.TokenRaised? {
        return ServerError;
      }
      if grant.status != StatusOk {
        return VerifyFailed;
      }
      if !IsFullGrant(grant) {
        return ServerError;
      }
      var body := grant.body.value;
      if user.None? || user.value.id.None? {
        return ServerError;
      }
      var info := user.value;
      var userId := info.id.value;
      var expiry := now + body.expiresIn.value;
      if !InDatetimeRange(expiry) {
        return ServerError;
      }
      if userId in members {
        if info.username.None? {
          return ServerError;
        }
        var existing := members[userId];
        existing := existing.(accessToken := body.accessToken.value);
        existing := existing.(refreshToken := body.refreshToken.value);
        existing := existing.(expiresAt := expiry);
        existing := existing.(username := info.username.value);
        existing := existing.(ipAddress := clientHost);
        members := members[userId := existing];
      } else {
        if info.username.None? || info.avatar.None? {
          return ServerError;
        }
        var newMember := Member(userId, info.username.value, None, info.avatar.value,
                                body.accessToken.value, body.refreshToken.value,
                                expiry, clientHost, now);
        members := members[userId := newMember];
      }
      response := Verified(info);
    }

    /**
     * `refresh_user_tokens`: select the records expiring within seven days of
     * the batch clock, then try each one on its own, counting successes and
     * failures. `exchange` gives the token endpoint's reply for a record.
     */
    method RefreshUserTokens(now: int, exchange: Member -> TokenReply) returns (refreshed: nat, failed: nat)
      requires Valid()
      modifies this
      ensures Valid()
      ensures members == RenewedStore(old(members), now, exchange)
      ensures refreshed == |RefreshedIds(old(members), now, exchange)|
      ensures failed == |FailedIds(old(members), now, exchange)|
      ensures refreshed + failed == |ExpiringSoon(old(members), now)|
    {
      ghost var before := members;
      var expiringSoon := ExpiringSoon(members, now);
      ghost var ok, bad := RefreshedIds(before, now, exchange), FailedIds(before, now, exchange);
      var pending := expiringSoon;
      refreshed, failed := 0, 0;
      while pending != {}
        invariant pending <= expiringSoon
        invariant members == RenewOnly(before, now, exchange, expiringSoon - pending)
        invariant refreshed == |ok - pending|
        invariant failed == |bad - pending|
        decreases pending
      {
        var id :| id in pending;
        var member := members[id];
        var reply := exchange(member);
        RenewStep(before, now, exchange, expiringSoon, pending, id);
        CountStep(before, now, exchange, pending, id);
        members := members[id := RenewMember(member, now, reply)];
        if Renews(reply, now) {
          refreshed := refreshed + 1;
        } else {
          failed := failed + 1;
        }
        pending := pending - {id};
      }
      NothingPending(ok, pending);
      NothingPending(bad, pending);
      NothingPending(expiringSoon, pending);
      assert refreshed + failed == |expiringSoon| by {
        CountsPartitionSelection(before, now, exchange);
      }
      assert UniqueUserIds(members) by {
        RenewalKeepsUniqueIds(before, now, exchange);
      }
    }

    /** `GET /admin`: the dashboard lists every record and their number, behind the password. */
    method AdminPanel(password: Option<string>, adminPassword: string) returns (response: PanelResponse)
      ensures response.PanelUnauthorized? <==> password != Some(adminPassword)
      ensures response.Dashboard? ==> response.rows == members.Values && response.count == |members|
    {
      if password != Some(adminPassword) {
        return PanelUnauthorized;
      }
      response := Dashboard(members.Values, |members|);
    }

    /**
     * `POST /admin/sync`: behind the password, run a renewal batch. The
     * batch is dispatched as a background task whose counts nobody reads;
     * here it runs to completion before the acknowledgement.
     */
    method SyncTokens(password: string, adminPassword: string, now: int, exchange: Member -> TokenReply) returns (response: SyncResponse)
      requires Valid()
      modifies this
      ensures Valid()
      ensures response == SyncUnauthorized <==> password != adminPassword
      ensures password != adminPassword ==> members == old(members)
      ensures password == adminPassword ==> members == RenewedStore(old(members), now, exchange)
    {
      if password != adminPassword {
        return SyncUnauthorized;
      }
      var _, _ := RefreshUserTokens(now, exchange);
      response := SyncInitiated;
    }

    /**
     * `POST /admin/restore`: behind the password, ask Discord to add every
     * stored member to guild `guildId` with their access token; `put` gives
     * the reply for a record. The table is only read.
     */
    method RestoreMembers(guildId: string, password: string, adminPassword: string, put: (string, Member) -> ReplayReply)
      returns (response: RestoreResponse)
      ensures response.RestoreUnauthorized? <==> password != adminPassword
      ensures response.Restored? ==>
        && response.restored == |RestoredIds(members, guildId, put)|
        && response.failed == |ReplayFailedIds(members, guildId, put)|
        && response.restored + response.failed == |members|
    {
      if password != adminPassword {
        return RestoreUnauthorized;
      }
      ghost var ok, bad := RestoredIds(members, guildId, put), ReplayFailedIds(members, guildId, put);
      assert ok + bad == members.Keys && ok !! bad;
      var pending := members.Keys;
      var restoredCount, failedCount := 0, 0;
      while pending != {}
        invariant pending <= members.Keys
        invariant restoredCount == |ok - pending|
        invariant failedCount == |bad - pending|
        decreases pending
      {
        var id :| id in pending;
        var reply := put(guildId, members[id]);
        assert id in ok <==> IsRestored(reply);
        assert id in bad <==> !IsRestored(reply);
        SettledCount(ok, pending, id);
        SettledCount(bad, pending, id);
        if IsRestored(reply) {
          restoredCount := restoredCount + 1;
        } else {
          failedCount := failedCount + 1;
        }
        pending := pending - {id};
      }
      NothingPending(ok, pending);
      NothingPending(bad, pending);
      response := Restored(restoredCount, failedCount);
    }
  }
}
