/**
 * The continuation-token state every paged tree node keeps: the blob
 * container, file share and queue group nodes and the blob directory item.
 * `loadMoreChildren(clearCache)` forgets the stored token on `clearCache`,
 * asks the service for the page after the stored token and stores the token
 * the service hands back; `hasMoreChildren()` is `!!token`.
 */
module Paging {
  import opened Wrappers
  import OrderedSet

  /** `!!token`: `undefined` and the empty string are falsy. */
  predicate Truthy(token: Option<string>) {
    token.Some? && token.value != ""
  }

  /** One answer of a segmented listing call. */
  datatype Reply<C> = Reply(entries: seq<C>, next: Option<string>)

  /** `hasMoreChildren()` */
  predicate HasMore(token: Option<string>) {
    Truthy(token)
  }

  /**
   * `loadMoreChildren(clearCache)` for a node holding `token`, against the
   * listing call `list`: the entries it returns and the token it stores.
   */
  function LoadMore<C>(token: Option<string>, clearCache: bool, list: Option<string> -> Reply<C>): (r: (seq<C>, Option<string>))
    ensures clearCache ==> r.0 == list(None).entries && r.1 == list(None).next
    ensures !clearCache ==> r.0 == list(token).entries && r.1 == list(token).next
    ensures HasMore(r.1) <==> Truthy(list(if clearCache then None else token).next)
  {
    var sent := if clearCache then None else token;
    var reply := list(sent);
    (reply.entries, reply.next)
  }

  /**
   * A listing service: `pages[0]` answers the call without a token, and
   * `keys[i]` is the continuation token that leads to `pages[i + 1]`.
   */
  datatype Service<C> = Service(pages: seq<seq<C>>, keys: seq<string>)

  /** Keys are non-empty, distinct, one per page after the first. */
  predicate Valid<C>(s: Service<C>) {
    |s.pages| >= 1 && |s.keys| == |s.pages| - 1 && OrderedSet.NoDup(s.keys)
    && forall i :: 0 <= i < |s.keys| ==> s.keys[i] != ""
  }

  /** The first position of `k` in `keys`, or -1. */
  function Position(keys: seq<string>, k: string): (r: int)
    ensures -1 <= r < |keys|
    ensures r == -1 <==> k !in keys
    ensures r >= 0 ==> keys[r] == k && k !in keys[..r]
  {
    if |keys| == 0 then -1
    else if keys[0] == k then 0
    else
      var p := Position(keys[1..], k);
      if p < 0 then -1 else p + 1
  }

  /** The token handed back with page `i`. */
  function NextToken<C>(s: Service<C>, i: nat): Option<string>
    requires Valid(s) && i < |s.pages|
  {
    if i + 1 < |s.pages| then Some(s.keys[i]) else None
  }

  /** The segmented listing call of the service; an unknown token ends the listing. */
  function Serve<C>(s: Service<C>, token: Option<string>): (r: Reply<C>)
    requires Valid(s)
  {
    match token
    case None => Reply(s.pages[0], NextToken(s, 0))
    case Some(k) =>
      var p := Position(s.keys, k);
      if p < 0 then Reply([], None) else Reply(s.pages[p + 1], NextToken(s, p + 1))
  }

  /** Every entry of the pages, in page order. */
  function Concat<C>(pages: seq<seq<C>>): (r: seq<C>) {
    if |pages| == 0 then [] else Concat(pages[..|pages| - 1]) + pages[|pages| - 1]
  }

  /** The token handed back with page `i` leads to page `i + 1`. */
  lemma ServeNext<C>(s: Service<C>, i: nat)
    requires Valid(s) && i + 1 < |s.pages|
    ensures Serve(s, NextToken(s, i)) == Reply(s.pages[i + 1], NextToken(s, i + 1))
  {
    assert Position(s.keys, s.keys[i]) == i;
  }

  /**
   * Expanding a node: one `loadMoreChildren(true)`, then
   * `loadMoreChildren(false)` for as long as `hasMoreChildren()` holds. The
   * node ends up with every entry of every page, in order.
   */
  method LoadAll<C>(s: Service<C>) returns (entries: seq<C>, token: Option<string>)
    requires Valid(s)
    ensures entries == Concat(s.pages)
    ensures !HasMore(token)
  {
    var list := (t: Option<string>) => Serve(s, t);
    var first := LoadMore(None, true, list);
    entries, token := first.0, first.1;
    var i := 0;
    assert s.pages[..1] == [s.pages[0]];
    while HasMore(token)
      invariant 0 <= i < |s.pages|
      invariant token == NextToken(s, i)
      invariant entries == Concat(s.pages[..i + 1])
      decreases |s.pages| - i
    {
      ServeNext(s, i);
      var more := LoadMore(token, false, list);
      assert s.pages[..i + 2][..i + 1] == s.pages[..i + 1];
      entries, token := entries + more.0, more.1;
      i := i + 1;
    }
    assert s.pages[..i + 1] == s.pages;
  }
}
