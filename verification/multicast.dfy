/** The multicast `Event<Args...>` of include/glfwpp/helper.h: a `std::list`
    of handlers, `+=` appends and hands back an iterator to the new node,
    `-=` erases the node an iterator names, and calling the event runs every
    handler in list order. */
module Multicast {
  import opened Calls

  /** A list iterator: it names one node for as long as that node lives. */
  type Token = nat

  /** One node of the handler list. */
  datatype Entry = Entry(token: Token, handler: HandlerId)

  /** The tokens of a handler list. */
  function Tokens(entries: seq<Entry>): (ts: set<Token>)
    ensures forall i :: 0 <= i < |entries| ==> entries[i].token in ts
    ensures forall t :: t in ts ==> exists i :: 0 <= i < |entries| && entries[i].token == t
  {
    set i | 0 <= i < |entries| :: entries[i].token
  }

  /** No two nodes share a token: iterators into a list are distinct. */
  ghost predicate DistinctTokens(entries: seq<Entry>)
  {
    forall i, j :: 0 <= i < j < |entries| ==> entries[i].token != entries[j].token
  }

  /** Position of the node that token `t` names. */
  function IndexOf(entries: seq<Entry>, t: Token): (i: nat)
    requires t in Tokens(entries)
    ensures i < |entries| && entries[i].token == t
    ensures forall j :: 0 <= j < i ==> entries[j].token != t
  {
    if entries[0].token == t then 0 else 1 + IndexOf(entries[1..], t)
  }

  /** `std::list::erase`: unlinks the first node carrying token `t`. At
      most one node goes, and only nodes of the list remain. */
  function Erase(entries: seq<Entry>, t: Token): (r: seq<Entry>)
    ensures |entries| - 1 <= |r| <= |entries|
    ensures multiset(r) <= multiset(entries)
  {
    if entries == [] then []
    else
      assert entries == [entries[0]] + entries[1..];
      if entries[0].token == t then entries[1..]
      else [entries[0]] + Erase(entries[1..], t)
  }

  /** The calls one dispatch performs: every handler once, in list order,
      each with the same arguments. */
  function Trace<A>(entries: seq<Entry>, args: A): (calls: seq<Call<A>>)
    ensures |calls| == |entries|
  {
    if entries == [] then [] else [Call(entries[0].handler, args)] + Trace(entries[1..], args)
  }

  /** The calls one dispatch performs as `operator()` is written: the loop
      hands `std::forward<Args>(args)...` to every handler, so a by-value
      argument is moved into the first handler's parameter and every later
      handler receives what the move left behind, `movedFrom`. */
  function ForwardTrace<A>(entries: seq<Entry>, args: A, movedFrom: A): (calls: seq<Call<A>>)
    ensures |calls| == |entries|
  {
    if entries == [] then [] else [Call(entries[0].handler, args)] + Trace(entries[1..], movedFrom)
  }

  /** For arguments that a move leaves intact (scalars, enums, references,
      types whose copy constructor is used for moves) the forwarding loop
      makes exactly the calls of `Trace`. */
  lemma ForwardTraceCopies<A>(entries: seq<Entry>, args: A)
    ensures ForwardTrace(entries, args, args) == Trace(entries, args)
  {
  }

  /** For an argument that a move changes, the forwarding loop differs from
      `Trace` as soon as there are two handlers: the first gets `args`, all
      later ones the moved-from value. */
  lemma ForwardTraceMoves<A>(entries: seq<Entry>, args: A, movedFrom: A)
    requires |entries| >= 2 && movedFrom != args
    ensures ForwardTrace(entries, args, movedFrom)[0] == Call(entries[0].handler, args)
    ensures forall k :: 1 <= k < |entries| ==> ForwardTrace(entries, args, movedFrom)[k] == Call(entries[k].handler, movedFrom)
    ensures ForwardTrace(entries, args, movedFrom) != Trace(entries, args)
  {
    TraceAt(entries[1..], movedFrom);
    TraceAt(entries, args);
    assert ForwardTrace(entries, args, movedFrom)[1].args != Trace(entries, args)[1].args;
  }

  /** Growing the list at the back adds one call at the end: with the
      original arguments for the first node, the moved-from value after. */
  lemma {:induction false} ForwardTraceAppend<A>(entries: seq<Entry>, e: Entry, args: A, movedFrom: A)
    ensures ForwardTrace(entries + [e], args, movedFrom)
         == ForwardTrace(entries, args, movedFrom) + [Call(e.handler, if entries == [] then args else movedFrom)]
  {
    if entries == [] {
      assert entries + [e] == [e];
    } else {
      assert (entries + [e])[1..] == entries[1..] + [e];
      TraceAppend(entries[1..], e, movedFrom);
    }
  }

  /** Erasing the node at position `i` leaves every other node, in order. */
  lemma {:induction false} EraseAt(entries: seq<Entry>, i: nat)
    requires DistinctTokens(entries)
    requires i < |entries|
    ensures Erase(entries, entries[i].token) == entries[..i] + entries[i + 1..]
  {
    if i > 0 {
      var rest := entries[1..];
      DistinctTail(entries);
      assert entries[0].token != entries[i].token;
      assert rest[i - 1] == entries[i];
      EraseAt(rest, i - 1);
      assert rest[..i - 1] + rest[i..] == entries[1..i] + entries[i + 1..];
      assert entries[..i] == [entries[0]] + entries[1..i];
    }
  }

  /** Dropping the first node keeps the tokens distinct. */
  lemma DistinctTail(entries: seq<Entry>)
    requires DistinctTokens(entries) && entries != []
    ensures DistinctTokens(entries[1..])
  {
    var rest := entries[1..];
    forall a, b | 0 <= a < b < |rest| ensures rest[a].token != rest[b].token {
      assert rest[a] == entries[a + 1] && rest[b] == entries[b + 1];
    }
  }

  /** The tokens of a concatenation are those of its parts. */
  lemma TokensConcat(a: seq<Entry>, b: seq<Entry>)
    ensures Tokens(a + b) == Tokens(a) + Tokens(b)
  {
    forall u | u in Tokens(a + b) ensures u in Tokens(a) + Tokens(b) {
      var k :| 0 <= k < |a + b| && (a + b)[k].token == u;
      if k >= |a| { assert (a + b)[k] == b[k - |a|]; }
    }
    forall u | u in Tokens(a) + Tokens(b) ensures u in Tokens(a + b) {
      if u in Tokens(a) {
        var k :| 0 <= k < |a| && a[k].token == u;
        assert (a + b)[k] == a[k];
      } else {
        var k :| 0 <= k < |b| && b[k].token == u;
        assert (a + b)[|a| + k] == b[k];
      }
    }
  }

  /** Removing the node at position `i` drops its token and keeps the
      tokens of all the others. */
  lemma SpliceTokens(entries: seq<Entry>, i: nat)
    requires DistinctTokens(entries)
    requires i < |entries|
    ensures Tokens(entries[..i] + entries[i + 1..]) == Tokens(entries) - {entries[i].token}
  {
    var t := entries[i].token;
    var pre, post := entries[..i], entries[i + 1..];
    assert entries == pre + [entries[i]] + post;
    TokensConcat(pre + [entries[i]], post);
    TokensConcat(pre, [entries[i]]);
    TokensConcat(pre, post);
    assert Tokens([entries[i]]) == {t} by { assert [entries[i]][0].token == t; }
    assert t !in Tokens(pre) by {
      forall k | 0 <= k < |pre| ensures pre[k].token != t { assert pre[k] == entries[k]; }
    }
    assert t !in Tokens(post) by {
      forall k | 0 <= k < |post| ensures post[k].token != t { assert post[k] == entries[i + 1 + k]; }
    }
  }

  /** Removing a node from a list of distinct tokens keeps them distinct. */
  lemma SpliceDistinct(entries: seq<Entry>, i: nat)
    requires DistinctTokens(entries)
    requires i < |entries|
    ensures DistinctTokens(entries[..i] + entries[i + 1..])
  {
    var r := entries[..i] + entries[i + 1..];
    forall a, b | 0 <= a < b < |r| ensures r[a].token != r[b].token {
      var a' := if a < i then a else a + 1;
      var b' := if b < i then b else b + 1;
      assert r[a] == entries[a'] && r[b] == entries[b'];
    }
  }

  /** Erasing one node keeps the tokens of all the others, and only those. */
  lemma EraseTokens(entries: seq<Entry>, t: Token)
    requires DistinctTokens(entries)
    requires t in Tokens(entries)
    ensures Tokens(Erase(entries, t)) == Tokens(entries) - {t}
    ensures DistinctTokens(Erase(entries, t))
  {
    var i := IndexOf(entries, t);
    EraseAt(entries, i);
    SpliceTokens(entries, i);
    SpliceDistinct(entries, i);
  }

  /** Dispatch calls handler `k` of the list as call number `k`, and makes no
      other calls. */
  lemma {:induction false} TraceAt<A>(entries: seq<Entry>, args: A)
    ensures |Trace(entries, args)| == |entries|
    ensures forall k :: 0 <= k < |entries| ==> Trace(entries, args)[k] == Call(entries[k].handler, args)
  {
    if entries != [] {
      TraceAt(entries[1..], args);
    }
  }

  /** Dispatching a list grown at the back calls the old handlers first and
      the new one last. */
  lemma {:induction false} TraceAppend<A>(entries: seq<Entry>, e: Entry, args: A)
    ensures Trace(entries + [e], args) == Trace(entries, args) + [Call(e.handler, args)]
  {
    if entries == [] {
      assert entries + [e] == [e];
    } else {
      assert (entries + [e])[1..] == entries[1..] + [e];
      TraceAppend(entries[1..], e, args);
    }
  }

  /** Dispatching a concatenation runs the first part, then the second. */
  lemma {:induction false} TraceConcat<A>(a: seq<Entry>, b: seq<Entry>, args: A)
    ensures Trace(a + b, args) == Trace(a, args) + Trace(b, args)
  {
    if a == [] {
      assert a + b == b;
    } else {
      assert (a + b)[1..] == a[1..] + b;
      TraceConcat(a[1..], b, args);
    }
  }

  /** Dispatch after `-=` performs the calls of the nodes before and after
      the removed one, in the same order, and no call of the removed one. */
  lemma TraceAfterErase<A>(entries: seq<Entry>, i: nat, args: A)
    requires DistinctTokens(entries)
    requires i < |entries|
    ensures Trace(Erase(entries, entries[i].token), args)
         == Trace(entries[..i], args) + Trace(entries[i + 1..], args)
    ensures Trace(entries, args)
         == Trace(entries[..i], args) + [Call(entries[i].handler, args)] + Trace(entries[i + 1..], args)
  {
    EraseAt(entries, i);
    TraceConcat(entries[..i], entries[i + 1..], args);
    TraceSplit(entries, i, args);
  }

  /** Dispatch calls the nodes before position `i`, then node `i`, then the
      nodes after it. */
  lemma TraceSplit<A>(entries: seq<Entry>, i: nat, args: A)
    requires i < |entries|
    ensures Trace(entries, args)
         == Trace(entries[..i], args) + [Call(entries[i].handler, args)] + Trace(entries[i + 1..], args)
  {
    var pre, rest := entries[..i], entries[i..];
    assert entries == pre + rest;
    TraceConcat(pre, rest, args);
    assert rest[1..] == entries[i + 1..];
  }

  class MulticastEvent<A> {
    /** `_handlers`, in list order. */
    var handlers: seq<Entry>
    /** Source of fresh iterators: no token is ever handed out twice. */
    var nextToken: Token
    /** A ghost tag an owner of several events gives each of them, so that
        its members can be told apart without reasoning about addresses. */
    ghost const tag: nat

    ghost predicate Valid()
      reads this
    {
      DistinctTokens(handlers) && forall t :: t in Tokens(handlers) ==> t < nextToken
    }

    /** A default-constructed event holds no handler. */
    constructor (ghost tag: nat)
      ensures Valid() && handlers == [] && this.tag == tag
    {
      handlers := [];
      nextToken := 0;
      this.tag := tag;
    }

    /** `operator+=`: appends the handler and returns a token for the new node. */
    method Subscribe(h: HandlerId) returns (t: Token)
      requires Valid()
      modifies this
      ensures Valid()
      ensures handlers == old(handlers) + [Entry(t, h)]
      ensures t !in old(Tokens(handlers))
      ensures Tokens(handlers) == old(Tokens(handlers)) + {t}
    {
      t := nextToken;
      TokensConcat(handlers, [Entry(t, h)]);
      assert Tokens([Entry(t, h)]) == {t} by { assert [Entry(t, h)][0].token == t; }
      handlers := handlers + [Entry(t, h)];
      nextToken := nextToken + 1;
    }

    /** `operator-=`: erases the node a live token names; a stale iterator
        is undefined behaviour in the source, hence the requires. */
    method Unsubscribe(t: Token)
      requires Valid()
      requires t in Tokens(handlers)
      modifies this
      ensures Valid()
      ensures var i := old(IndexOf(handlers, t));
        handlers == old(handlers)[..i] + old(handlers)[i + 1..]
      ensures Tokens(handlers) == old(Tokens(handlers)) - {t}
    {
      EraseAt(handlers, IndexOf(handlers, t));
      EraseTokens(handlers, t);
      handlers := Erase(handlers, t);
    }

    /** `operator() const` as intended: runs every handler once, in list
        order, with the same arguments, and changes nothing. This is what the
        source does whenever moving the arguments leaves them intact. */
    method Dispatch(args: A) returns (calls: seq<Call<A>>)
      ensures calls == Trace(handlers, args)
      ensures |calls| == |handlers|
      ensures forall k :: 0 <= k < |handlers| ==> calls[k] == Call(handlers[k].handler, args)
    {
      calls := [];
      var i := 0;
      while i < |handlers|
        invariant 0 <= i <= |handlers|
        invariant calls == Trace(handlers[..i], args)
      {
        TraceAppend(handlers[..i], handlers[i], args);
        assert handlers[..i + 1] == handlers[..i] + [handlers[i]];
        calls := calls + [Call(handlers[i].handler, args)];
        i := i + 1;
      }
      assert handlers[..i] == handlers;
      TraceAt(handlers, args);
    }

    /** `operator() const` as written: the loop forwards the arguments into
        each handler in turn, so only the first handler receives `args`; each
        later one receives `movedFrom`, what the first move left behind. */
    method DispatchForwarding(args: A, movedFrom: A) returns (calls: seq<Call<A>>)
      ensures calls == ForwardTrace(handlers, args, movedFrom)
      ensures |calls| == |handlers|
      ensures |handlers| > 0 ==> calls[0] == Call(handlers[0].handler, args)
      ensures forall k :: 1 <= k < |handlers| ==> calls[k] == Call(handlers[k].handler, movedFrom)
    {
      calls := [];
      var passed := args;
      var i := 0;
      while i < |handlers|
        invariant 0 <= i <= |handlers|
        invariant passed == if i == 0 then args else movedFrom
        invariant calls == ForwardTrace(handlers[..i], args, movedFrom)
      {
        ForwardTraceAppend(handlers[..i], handlers[i], args, movedFrom);
        assert handlers[..i + 1] == handlers[..i] + [handlers[i]];
        calls := calls + [Call(handlers[i].handler, passed)];
        passed := movedFrom;
        i := i + 1;
      }
      assert handlers[..i] == handlers;
      if |handlers| > 0 {
        TraceAt(handlers[1..], movedFrom);
      }
    }
  }

  /** Three handlers subscribed in order are called in that order; after the
      middle one is unsubscribed, the other two are still called, in order. */
  method UnsubscribeMiddle<A>(s1: HandlerId, s2: HandlerId, s3: HandlerId, args: A)
    returns (before: seq<Call<A>>, after: seq<Call<A>>)
    ensures before == [Call(s1, args), Call(s2, args), Call(s3, args)]
    ensures after == [Call(s1, args), Call(s3, args)]
  {
    var e := new MulticastEvent<A>(0);
    var t1 := e.Subscribe(s1);
    var t2 := e.Subscribe(s2);
    var t3 := e.Subscribe(s3);
    var all := [Entry(t1, s1), Entry(t2, s2), Entry(t3, s3)];
    assert e.handlers == all;
    before := e.Dispatch(args);
    assert IndexOf(all, t2) == 1;
    e.Unsubscribe(t2);
    assert e.handlers == [Entry(t1, s1), Entry(t3, s3)];
    after := e.Dispatch(args);
  }

  /** A resize event with one logging handler, dispatched twice, calls the
      logger with the two argument pairs in dispatch order. */
  method ResizeLog(logger: HandlerId) returns (calls: seq<Call<(int, int)>>)
    ensures calls == [Call(logger, (800, 600)), Call(logger, (1024, 768))]
  {
    var resize := new MulticastEvent<(int, int)>(0);
    var _ := resize.Subscribe(logger);
    var first := resize.Dispatch((800, 600));
    var second := resize.Dispatch((1024, 768));
    calls := first + second;
  }
}
