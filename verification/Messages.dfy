/** Messages sent to a model, and what it means for one list of messages to be a reduction of another. */
module Messages {

  datatype Role = System | User | Assistant | Tool

  datatype Call = Call(id: string, name: string, arguments: string)

  datatype Message = Message(
    role: Role, content: string, calls: seq<Call>, callId: string, name: string,
    reasoning: string, thinking: seq<string>)

  /** Counts the tokens of a list of messages; nothing is assumed of it. */
  type Counter = seq<Message> -> nat

  /** The ids of the calls a message makes. */
  function CallIds(m: Message): set<string>
  {
    if m.role == Assistant then Ids(m.calls) else {}
  }

  function Ids(calls: seq<Call>): set<string>
  {
    if calls == [] then {} else {calls[0].id} + Ids(calls[1..])
  }

  lemma {:induction false} IdsAre(calls: seq<Call>, id: string)
    ensures id in Ids(calls) <==> exists k :: 0 <= k < |calls| && calls[k].id == id
    decreases |calls|
  {
    if calls != [] {
      IdsAre(calls[1..], id);
      assert (exists k :: 0 <= k < |calls| && calls[k].id == id)
             <==> calls[0].id == id || exists k :: 0 <= k < |calls[1..]| && calls[1..][k].id == id by {
        if k :| 0 < k < |calls| && calls[k].id == id {
          assert calls[1..][k - 1].id == id;
        }
        if k :| 0 <= k < |calls[1..]| && calls[1..][k].id == id {
          assert calls[k + 1].id == id;
        }
      }
    }
  }

  /** System and user messages are never touched. */
  predicate Fixed(m: Message) { m.role == System || m.role == User }

  /** All but the text of a message. */
  function Skeleton(m: Message): Message { m.(content := "", reasoning := "") }

  /** The same message, up to its text unless it is fixed. */
  predicate Similar(a: Message, b: Message)
  {
    Skeleton(a) == Skeleton(b) && (Fixed(a) ==> a == b)
  }

  predicate SameShape(a: seq<Message>, b: seq<Message>)
  {
    |a| == |b| && forall i :: 0 <= i < |a| ==> Similar(a[i], b[i])
  }

  /** `b` is `a` with some messages that are not fixed left out, and with some texts changed. */
  predicate Shrinks(a: seq<Message>, b: seq<Message>)
    decreases |a|
  {
    if a == [] then b == []
    else
      || (b != [] && Similar(a[0], b[0]) && Shrinks(a[1..], b[1..]))
      || (!Fixed(a[0]) && Shrinks(a[1..], b))
  }

  function FixedOnes(s: seq<Message>): seq<Message>
  {
    if s == [] then [] else (if Fixed(s[0]) then [s[0]] else []) + FixedOnes(s[1..])
  }

  lemma {:induction false} ShrinksKeepsFixed(a: seq<Message>, b: seq<Message>)
    requires Shrinks(a, b)
    ensures FixedOnes(a) == FixedOnes(b)
    decreases |a|
  {
    if a != [] {
      if b != [] && Similar(a[0], b[0]) && Shrinks(a[1..], b[1..]) {
        ShrinksKeepsFixed(a[1..], b[1..]);
      } else {
        ShrinksKeepsFixed(a[1..], b);
      }
    }
  }

  lemma {:induction false} ShrinksComposes(a: seq<Message>, b: seq<Message>, c: seq<Message>)
    requires Shrinks(a, b) && Shrinks(b, c)
    ensures Shrinks(a, c)
    decreases |a| + |b|
  {
    if a != [] {
      if b != [] && Similar(a[0], b[0]) && Shrinks(a[1..], b[1..]) {
        if c != [] && Similar(b[0], c[0]) && Shrinks(b[1..], c[1..]) {
          ShrinksComposes(a[1..], b[1..], c[1..]);
        } else {
          ShrinksComposes(a[1..], b[1..], c);
        }
      } else {
        ShrinksComposes(a[1..], b, c);
      }
    }
  }

  lemma {:induction false} SameShapeShrinks(a: seq<Message>, b: seq<Message>)
    requires SameShape(a, b)
    ensures Shrinks(a, b)
    decreases |a|
  {
    if a != [] { SameShapeShrinks(a[1..], b[1..]); }
  }

  lemma {:induction false} ShrinksConcat(a: seq<Message>, b: seq<Message>, c: seq<Message>, d: seq<Message>)
    requires Shrinks(a, b) && Shrinks(c, d)
    ensures Shrinks(a + c, b + d)
    decreases |a|
  {
    if a == [] {
      assert a + c == c && b + d == d;
    } else {
      assert (a + c)[1..] == a[1..] + c;
      if b != [] && Similar(a[0], b[0]) && Shrinks(a[1..], b[1..]) {
        ShrinksConcat(a[1..], b[1..], c, d);
        assert (b + d)[1..] == b[1..] + d;
      } else {
        ShrinksConcat(a[1..], b, c, d);
      }
    }
  }

  /** What is left of a list has the ids of a message that was there. */
  lemma {:induction false} ShrinksFrom(a: seq<Message>, b: seq<Message>, n: Message)
    returns (m: Message)
    requires Shrinks(a, b) && n in b
    ensures m in a && Similar(m, n)
    decreases |a|
  {
    if b != [] && Similar(a[0], b[0]) && Shrinks(a[1..], b[1..]) {
      if n == b[0] {
        m := a[0];
      } else {
        m := ShrinksFrom(a[1..], b[1..], n);
      }
    } else {
      m := ShrinksFrom(a[1..], b, n);
    }
  }

  // ---------------------------------------------------------------------------
  // Calls and their results
  // ---------------------------------------------------------------------------

  /** Every tool result answers a call among `seen` or earlier in the list. */
  predicate PairedFrom(seen: set<string>, s: seq<Message>)
    decreases |s|
  {
    s == [] || ((s[0].role == Tool ==> s[0].callId in seen) && PairedFrom(seen + CallIds(s[0]), s[1..]))
  }

  predicate Paired(s: seq<Message>) { PairedFrom({}, s) }

  function AllCalls(s: seq<Message>): set<string>
  {
    if s == [] then {} else CallIds(s[0]) + AllCalls(s[1..])
  }

  lemma {:induction false} PairedConcat(seen: set<string>, a: seq<Message>, b: seq<Message>)
    ensures PairedFrom(seen, a + b) <==> PairedFrom(seen, a) && PairedFrom(seen + AllCalls(a), b)
    decreases |a|
  {
    if a == [] {
      assert a + b == b && seen + AllCalls(a) == seen;
    } else {
      assert (a + b)[1..] == a[1..] + b;
      assert seen + CallIds(a[0]) + AllCalls(a[1..]) == seen + AllCalls(a);
      PairedConcat(seen + CallIds(a[0]), a[1..], b);
    }
  }

  lemma {:induction false} SameShapePaired(seen: set<string>, a: seq<Message>, b: seq<Message>)
    requires SameShape(a, b) && PairedFrom(seen, a)
    ensures PairedFrom(seen, b)
    decreases |a|
  {
    if a != [] {
      SimilarIds(a[0], b[0]);
      SameShapePaired(seen + CallIds(a[0]), a[1..], b[1..]);
    }
  }

  lemma SimilarIds(a: Message, b: Message)
    requires Similar(a, b)
    ensures a.role == b.role && a.calls == b.calls && a.callId == b.callId && a.thinking == b.thinking
    ensures CallIds(a) == CallIds(b)
  {
    assert Skeleton(a).role == a.role && Skeleton(b).role == b.role;
    assert Skeleton(a).calls == a.calls && Skeleton(b).calls == b.calls;
    assert Skeleton(a).callId == a.callId && Skeleton(b).callId == b.callId;
    assert Skeleton(a).thinking == a.thinking && Skeleton(b).thinking == b.thinking;
  }

  /** The position of the call a result answers, as the definition says: an earlier message. */
  lemma {:induction false} PairedMeansEarlierCall(seen: set<string>, s: seq<Message>, i: nat) returns (j: int)
    requires PairedFrom(seen, s) && i < |s| && s[i].role == Tool
    ensures -1 <= j < i && s[i].callId in (if j == -1 then seen else CallIds(s[j]))
    decreases |s|
  {
    if i == 0 {
      j := -1;
    } else {
      var k := PairedMeansEarlierCall(seen + CallIds(s[0]), s[1..], i - 1);
      if k != -1 { j := k + 1; } else if s[i].callId in seen { j := -1; } else { j := 0; }
    }
  }

  /** No id is used by two messages. */
  predicate UniqueCalls(s: seq<Message>)
  {
    s == [] || ((forall n :: n in s[1..] ==> CallIds(s[0]) !! CallIds(n)) && UniqueCalls(s[1..]))
  }

  lemma {:induction false} ShrinksKeepsUnique(a: seq<Message>, b: seq<Message>)
    requires Shrinks(a, b) && UniqueCalls(a)
    ensures UniqueCalls(b)
    decreases |a|
  {
    if b != [] {
      if Similar(a[0], b[0]) && Shrinks(a[1..], b[1..]) {
        ShrinksKeepsUnique(a[1..], b[1..]);
        SimilarIds(a[0], b[0]);
        forall n | n in b[1..] ensures CallIds(b[0]) !! CallIds(n) {
          var m := ShrinksFrom(a[1..], b[1..], n);
          SimilarIds(m, n);
        }
      } else {
        ShrinksKeepsUnique(a[1..], b);
      }
    }
  }

  lemma {:induction false} UniqueCallsApart(a: seq<Message>, m: Message, b: seq<Message>, n: Message)
    requires UniqueCalls(a + [m] + b) && (n in a || n in b)
    ensures CallIds(m) !! CallIds(n)
    decreases |a|
  {
    var s := a + [m] + b;
    if a == [] {
      assert s[0] == m && s[1..] == b;
    } else {
      assert s[1..] == a[1..] + [m] + b && s[0] == a[0];
      if n == a[0] {
        assert s[1..][|a| - 1] == m;
      } else {
        UniqueCallsApart(a[1..], m, b, n);
      }
    }
  }
}
