/** `TransactionsService.findByUser`: relays
    `api/en/transactions/find-by-user` with the params `{userId, page}`. */
module Transactions {
  import opened Wrappers
  import opened Text
  import opened Paths
  import opened Json
  import opened YayaHttp
  import Signature

  const FindByUserRelayPath := "api/en/transactions/find-by-user"

  /** `{userId: userId, page: page}`. */
  function FindByUserParams(userId: string, page: int): (params: seq<Field>)
    ensures Keys(params) == ["userId", "page"]
  {
    [Field("userId", Str(userId)), Field("page", Num(page))]
  }

  class TransactionsService {
    const yayaHttp: YayaHttpService

    constructor (yayaHttp: YayaHttpService)
      ensures this.yayaHttp == yayaHttp
    {
      this.yayaHttp := yayaHttp;
    }

    /** `findByUser(userId, page)`: the relay's result, unchanged; for a
        constructed relay, a page that echoes `userId` and `page`, lists t1
        then t2, and has `currentPage` 1. */
    method FindByUser(userId: string, page: int, clock: Clock, fx: Effects) returns (r: Result<Value, HttpError>)
      ensures r == yayaHttp.Outcome(FindByUserRelayPath, FindByUserParams(userId, page), clock, fx)
      ensures yayaHttp.Valid() ==> (
        && r.Success?
        && Get(r.value, "userId") == Str(userId)
        && Get(r.value, "page") == Num(page)
        && Get(r.value, "transactions") == Arr([TransactionValue(T1(clock.iso)), TransactionValue(T2(clock.iso))])
        && Get(r.value, "currentPage") == Num(1))
    {
      r := yayaHttp.Get(FindByUserRelayPath, FindByUserParams(userId, page), clock, fx);
      if yayaHttp.Valid() {
        FindByUserAnswersFromFixture(userId, page, clock);
      }
    }
  }

  lemma FindByUserRelayPathNormalizes()
    ensures NormalizePath(FindByUserRelayPath) == FindByUserPath
  {
    assert "/" + FindByUserRelayPath == FindByUserPath;
  }

  /** The relayed path reaches the find-by-user fixture, not the time one,
      and the params echo back while `p`, never sent, leaves `currentPage` at 1. */
  lemma FindByUserAnswersFromFixture(userId: string, page: int, clock: Clock)
    ensures RouteOf(NormalizePath(FindByUserRelayPath)) == FindByUserRoute
    ensures var v := MockResponse(NormalizePath(FindByUserRelayPath), FindByUserParams(userId, page), clock);
      && Get(v, "userId") == Str(userId)
      && Get(v, "page") == Num(page)
      && Get(v, "transactions") == Arr([TransactionValue(T1(clock.iso)), TransactionValue(T2(clock.iso))])
      && Get(v, "currentPage") == Num(1)
  {
    var params := FindByUserParams(userId, page);
    FindByUserRelayPathNormalizes();
    FindByUserPathRoute();
    FindByUserMockFields(FindByUserPath, params, clock);
    LookupAt(params, "userId", 0);
    LookupAt(params, "page", 1);
    assert Keys(params) == ["userId", "page"] && "p" !in Keys(params);
  }

  /** In the real branch the two params are always signed: the canonical
      string ends with their JSON. */
  lemma FindByUserRealPrehash(timestamp: string, userId: string, page: int, stringify: Signature.Stringify)
    ensures RelayPrehash(timestamp, NormalizePath(FindByUserRelayPath), FindByUserParams(userId, page), stringify)
            == timestamp + "GET" + FindByUserPath + stringify(Obj(FindByUserParams(userId, page)))
  {
    FindByUserRelayPathNormalizes();
  }
}
