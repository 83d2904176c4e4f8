/** The cache and the call budget of `github_api_get` in populate_bulk_checksums.py. */
module GithubApi {
  import opened Text

  const LIMIT: nat := 58

  /** What the script remembers: how many calls it made, and the answers. */
  datatype State = Memory(calls: nat, cache: map<string, string>)

  /** A request, with what the network would answer if it were asked. */
  datatype Request = Request(url: string, answer: Option<string>)

  function Step(s: State, r: Request): (State, Option<string>) {
    if r.url in s.cache then (s, Some(s.cache[r.url]))
    else if s.calls >= LIMIT then (s, None)
    else match r.answer
      case Some(data) => (Memory(s.calls + 1, s.cache[r.url := data]), Some(data))
      case None => (s.(calls := s.calls + 1), None)
  }

  class Client {
    var calls: nat
    var cache: map<string, string>

    ghost function Known(): State
      reads this
    {
      Memory(calls, cache)
    }

    constructor ()
      ensures Known() == Memory(0, map[])
    {
      calls := 0;
      cache := map[];
    }

    method Get(r: Request) returns (data: Option<string>)
      modifies this
      ensures (Known(), data) == Step(old(Known()), r)
    {
      if r.url in cache {
        return Some(cache[r.url]);
      }
      if calls >= LIMIT {
        return None;
      }
      calls := calls + 1;
      if r.answer.Some? {
        data := r.answer;
        cache := cache[r.url := data.value];
        return;
      }
      return None;
    }

    /** A whole series of requests. */
    method GetAll(rs: seq<Request>) returns (replies: seq<Option<string>>)
      modifies this
      ensures Known() == After(old(Known()), rs, |rs|)
      ensures replies == Replies(old(Known()), rs, |rs|)
    {
      replies := [];
      for i := 0 to |rs|
        invariant Known() == After(old(Known()), rs, i)
        invariant replies == Replies(old(Known()), rs, i)
      {
        var data := Get(rs[i]);
        replies := replies + [data];
      }
    }
  }

  function After(s: State, rs: seq<Request>, n: nat): State
    requires n <= |rs|
  {
    if n == 0 then s else Step(After(s, rs, n - 1), rs[n - 1]).0
  }

  function Replies(s: State, rs: seq<Request>, n: nat): (r: seq<Option<string>>)
    requires n <= |rs|
    ensures |r| == n
  {
    if n == 0 then [] else Replies(s, rs, n - 1) + [Step(After(s, rs, n - 1), rs[n - 1]).1]
  }

  lemma {:induction false} ReplyAt(s: State, rs: seq<Request>, n: nat, i: nat)
    requires i < n <= |rs|
    ensures Replies(s, rs, n)[i] == Step(After(s, rs, i), rs[i]).1
  {
    if i < n - 1 {
      ReplyAt(s, rs, n - 1, i);
    }
  }

  /** The budget holds over every series of requests. */
  lemma {:induction false} BudgetHolds(s: State, rs: seq<Request>, n: nat)
    requires n <= |rs| && s.calls <= LIMIT
    ensures s.calls <= After(s, rs, n).calls <= LIMIT
    ensures After(s, rs, n).calls <= s.calls + n
  {
    if n > 0 {
      BudgetHolds(s, rs, n - 1);
    }
  }

  /** What is cached stays cached, with the same answer. */
  lemma {:induction false} CacheStays(s: State, rs: seq<Request>, i: nat, n: nat, url: string)
    requires i <= n <= |rs| && url in After(s, rs, i).cache
    ensures url in After(s, rs, n).cache && After(s, rs, n).cache[url] == After(s, rs, i).cache[url]
  {
    if i < n {
      CacheStays(s, rs, i, n - 1, url);
    }
  }

  /** Once a URL has been answered, it is answered alike for ever, and costs no further call. */
  lemma AnsweredForEver(s: State, rs: seq<Request>, i: nat, j: nat)
    requires i < j < |rs| && rs[i].url == rs[j].url && Replies(s, rs, |rs|)[i].Some?
    ensures Replies(s, rs, |rs|)[j] == Replies(s, rs, |rs|)[i]
    ensures After(s, rs, j + 1) == After(s, rs, j)
  {
    ReplyAt(s, rs, |rs|, i);
    ReplyAt(s, rs, |rs|, j);
    CacheStays(s, rs, i + 1, j, rs[i].url);
  }

  /** Nothing is made up: a reply was cached at the start, or a request for the URL got it. */
  lemma {:induction false} CacheIsTrue(s: State, rs: seq<Request>, n: nat, url: string) returns (k: nat)
    requires n <= |rs| && url in After(s, rs, n).cache
    ensures (url in s.cache && After(s, rs, n).cache[url] == s.cache[url]) ||
            (k < n && rs[k] == Request(url, Some(After(s, rs, n).cache[url])))
  {
    if n == 0 {
      k := 0;
    } else if url in After(s, rs, n - 1).cache {
      k := CacheIsTrue(s, rs, n - 1, url);
    } else {
      k := n - 1;
    }
  }

  /** A URL that is not cached: within the budget the network is asked, at the cost of one call, and its answer handed on and kept. */
  lemma FreshReply(s: State, rs: seq<Request>, i: nat)
    requires i < |rs| && rs[i].url !in After(s, rs, i).cache
    ensures var before, after := After(s, rs, i), After(s, rs, i + 1);
            if before.calls < LIMIT then
              && Replies(s, rs, |rs|)[i] == rs[i].answer && after.calls == before.calls + 1
              && after.cache == (match rs[i].answer case Some(data) => before.cache[rs[i].url := data] case None => before.cache)
            else Replies(s, rs, |rs|)[i] == None && after == before
  {
    ReplyAt(s, rs, |rs|, i);
  }

  /** A URL that is cached costs nothing, even when the budget is used up. */
  lemma CachedReply(s: State, rs: seq<Request>, i: nat)
    requires i < |rs| && rs[i].url in After(s, rs, i).cache
    ensures Replies(s, rs, |rs|)[i] == Some(After(s, rs, i).cache[rs[i].url]) && After(s, rs, i + 1) == After(s, rs, i)
  {
    ReplyAt(s, rs, |rs|, i);
  }
}
