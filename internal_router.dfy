/** `get_all_users_and_metrics` of app/apis/internal_router.py: the
    anonymised per-user analytics rows of a database function, left-joined
    by pseudonymous id against the profiles table. The two fetches are
    inputs: their outcome is given, not performed. Timestamps are abstract;
    `datetime.now()` is the parameter `now`. */
module InternalRouter {
  import opened Common

  /** A row of `profiles` (`id, pseudonymous_id, consent_given, created_at,
      updated_at`); the nullable columns are options. */
  datatype Profile = Profile(
    id: string,
    pseudonymousId: Option<string>,
    consentGiven: Option<bool>,
    createdAt: Option<Stamp>,
    updatedAt: Option<Stamp>)

  /** A row of `get_anonymized_user_analytics`. The pseudonymous id and the
      counts are `None` where the key is missing (an empty id stays `""`);
      the join date is `None` where the key is missing or the value is
      falsy. */
  datatype AnalyticsRow = AnalyticsRow(
    pseudonymousId: Option<string>,
    joinDate: Option<Stamp>,
    tradeCount: Option<int>,
    chatCount: Option<int>)

  /** UserDataInternal: one user of the console. */
  datatype UserData = UserData(
    id: string,
    pseudonymousId: Option<string>,
    consentGiven: Option<bool>,
    createdAt: Stamp,
    updatedAt: Option<Stamp>,
    tradesCount: int,
    chatsCount: int)

  /** What the RPC call gave: it raised, or it returned an error message
      and/or data. */
  datatype RpcOutcome = RpcRaised | RpcReturned(error: Option<string>, data: Option<seq<AnalyticsRow>>)

  /** What the profiles query gave: it raised, or it returned data, which may
      be null. */
  datatype ProfilesOutcome = ProfilesRaised | ProfilesReturned(data: Option<seq<Profile>>)

  /** `p.get('pseudonymous_id')` is truthy. */
  predicate Keyed(p: Profile) {
    p.pseudonymousId.Some? && p.pseudonymousId.value != ""
  }

  /** Profile `p` is keyed under `k` in `profiles_map`. */
  predicate KeyedAs(p: Profile, k: string) {
    Keyed(p) && p.pseudonymousId == Some(k)
  }

  /** The index of the last profile keyed under `k`, if any. */
  function LastKeyed(profiles: seq<Profile>, k: string): (r: Option<nat>)
    ensures r.Some? ==> r.value < |profiles| && KeyedAs(profiles[r.value], k)
    ensures r.Some? ==> forall j :: r.value < j < |profiles| ==> !KeyedAs(profiles[j], k)
    ensures r.None? ==> forall i :: 0 <= i < |profiles| ==> !KeyedAs(profiles[i], k)
  {
    if profiles == [] then None
    else
      var n := |profiles| - 1;
      if KeyedAs(profiles[n], k) then Some(n) else LastKeyed(profiles[..n], k)
  }

  /** `profiles_map`: profiles by pseudonymous id, skipping those without
      one; where two share an id, the later one in the list wins. */
  function ProfilesMap(profiles: seq<Profile>): (m: map<string, Profile>)
    ensures forall k :: k in m <==> LastKeyed(profiles, k).Some?
    ensures forall k :: k in m ==> m[k] == profiles[LastKeyed(profiles, k).value]
  {
    if profiles == [] then map[]
    else
      var n := |profiles| - 1;
      var m := ProfilesMap(profiles[..n]);
      var p := profiles[n];
      if Keyed(p) then m[p.pseudonymousId.value := p] else m
  }

  /** `profiles_map.get(pseudo_id)`. */
  function ProfileOf(row: AnalyticsRow, profiles: map<string, Profile>): Option<Profile> {
    if row.pseudonymousId.Some? && row.pseudonymousId.value in profiles then Some(profiles[row.pseudonymousId.value])
    else None
  }

  /** One entry of `final_data`. The creation time is the row's join date,
      else the profile's creation time, else now. Without a profile the id is
      "N/A", consent is false and the update time is the creation time; with
      one they are the profile's, null included. Missing counts are 0. */
  function JoinRow(row: AnalyticsRow, profiles: map<string, Profile>, now: Stamp): UserData {
    var profile := ProfileOf(row, profiles);
    var joined :=
      if row.joinDate.Some? then row.joinDate
      else if profile.Some? then profile.value.createdAt
      else None;
    var createdAt := joined.GetOr(now);
    UserData(
      if profile.Some? then profile.value.id else "N/A",
      row.pseudonymousId,
      if profile.Some? then profile.value.consentGiven else Some(false),
      createdAt,
      if profile.Some? then profile.value.updatedAt else Some(createdAt),
      row.tradeCount.GetOr(0),
      row.chatCount.GetOr(0))
  }

  /** A row without a matching profile gets the defaults. */
  lemma UnmatchedRowDefaults(row: AnalyticsRow, profiles: seq<Profile>, now: Stamp)
    requires forall i :: 0 <= i < |profiles| ==> profiles[i].pseudonymousId != row.pseudonymousId || !Keyed(profiles[i])
    ensures var u := JoinRow(row, ProfilesMap(profiles), now);
      && u.id == "N/A"
      && u.consentGiven == Some(false)
      && u.createdAt == row.joinDate.GetOr(now)
      && u.updatedAt == Some(u.createdAt)
      && u.tradesCount == row.tradeCount.GetOr(0)
      && u.chatsCount == row.chatCount.GetOr(0)
  {
  }

  /** A row whose pseudonymous id some profile carries is joined with the
      last such profile in the list. */
  lemma MatchedRowUsesLastProfile(row: AnalyticsRow, profiles: seq<Profile>, now: Stamp, i: nat)
    requires i < |profiles| && Keyed(profiles[i]) && profiles[i].pseudonymousId == row.pseudonymousId
    requires forall j :: i < j < |profiles| ==> profiles[j].pseudonymousId != row.pseudonymousId
    ensures var u := JoinRow(row, ProfilesMap(profiles), now);
      && u.id == profiles[i].id
      && u.consentGiven == profiles[i].consentGiven
      && u.updatedAt == profiles[i].updatedAt
      && u.createdAt == (if row.joinDate.Some? then row.joinDate.value else profiles[i].createdAt.GetOr(now))
  {
    var k := row.pseudonymousId.value;
    var last := LastKeyed(profiles, k);
    assert KeyedAs(profiles[i], k);
    assert last == Some(i);
  }

  /** The `for` loop that builds `final_data`: one entry per row, in row
      order. */
  method JoinRows(rows: seq<AnalyticsRow>, profiles: map<string, Profile>, now: Stamp) returns (out: seq<UserData>)
    ensures |out| == |rows|
    ensures forall i :: 0 <= i < |rows| ==> out[i] == JoinRow(rows[i], profiles, now)
  {
    out := [];
    for i := 0 to |rows|
      invariant |out| == i
      invariant forall j :: 0 <= j < i ==> out[j] == JoinRow(rows[j], profiles, now)
    {
      out := out + [JoinRow(rows[i], profiles, now)];
    }
  }

  const AccessDenied: string := "Access denied"

  /** `get_all_users_and_metrics`: 500 when the RPC raises; 403 when it
      reports "Access denied"; 500 when the profiles query raises, or when
      there are no rows to iterate (an uncaught `TypeError`); otherwise the
      joined rows. */
  method GetAllUsersAndMetrics(rpc: RpcOutcome, profiles: ProfilesOutcome, now: Stamp) returns (r: Result<seq<UserData>>)
    ensures rpc.RpcRaised? ==> r == Err(InternalError)
    ensures rpc.RpcReturned? && rpc.error == Some(AccessDenied) ==> r == Err(Forbidden)
    ensures rpc.RpcReturned? && rpc.error != Some(AccessDenied) && profiles.ProfilesRaised? ==> r == Err(InternalError)
    ensures rpc.RpcReturned? && rpc.error != Some(AccessDenied) && profiles.ProfilesReturned? && rpc.data.None? ==>
              r == Err(InternalError)
    ensures r.Ok? <==> rpc.RpcReturned? && rpc.error != Some(AccessDenied) && profiles.ProfilesReturned? && rpc.data.Some?
    ensures r.Ok? ==>
              var rows := rpc.data.value;
              var byId := ProfilesMap(profiles.data.GetOr([]));
              && |r.value| == |rows|
              && forall i :: 0 <= i < |rows| ==> r.value[i] == JoinRow(rows[i], byId, now)
  {
    if rpc.RpcRaised? {
      return Err(InternalError);
    }
    if rpc.error == Some(AccessDenied) {
      return Err(Forbidden);
    }
    if profiles.ProfilesRaised? {
      return Err(InternalError);
    }
    var byId := ProfilesMap(profiles.data.GetOr([]));
    if rpc.data.None? {
      return Err(InternalError);
    }
    var out := JoinRows(rpc.data.value, byId, now);
    r := Ok(out);
  }
}
