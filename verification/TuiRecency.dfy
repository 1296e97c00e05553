/**
 Which sessions the client forgets when it tracks more than 128: the ones it has not touched for longest,
 those with a cursor before those of which it only knows a generation.
 */
module TuiRecency {
  import opened Common
  import opened TuiReplay

  /** Some occurrence of a stands before some occurrence of b. */
  predicate Precedes(keys: seq<Sid>, a: Sid, b: Sid)
    decreases |keys|
  {
    keys != [] && ((keys[0] == a && b in keys[1..]) || Precedes(keys[1..], a, b))
  }

  lemma {:induction false} PrecedesIn(keys: seq<Sid>, a: Sid, b: Sid)
    requires Precedes(keys, a, b)
    ensures a in keys && b in keys
    decreases |keys|
  {
    assert keys == [keys[0]] + keys[1..];
    if !(keys[0] == a && b in keys[1..]) {
      PrecedesIn(keys[1..], a, b);
    }
  }

  lemma {:induction false} WithoutKeepsOrder(keys: seq<Sid>, k: Sid, a: Sid, b: Sid)
    requires a != k && b != k
    ensures Precedes(Without(keys, k), a, b) <==> Precedes(keys, a, b)
  {
    if keys != [] {
      var rest := Without(keys[1..], k);
      WithoutKeepsOrder(keys[1..], k, a, b);
      WithoutIs(keys[1..], k);
      if keys[0] == k {
        assert Without(keys, k) == rest;
      } else {
        assert Without(keys, k)[1..] == rest;
      }
    }
  }

  lemma {:induction false} OutsideKeepsOrder(keys: seq<Sid>, ks: set<Sid>, a: Sid, b: Sid)
    requires a !in ks && b !in ks
    ensures Precedes(Outside(keys, ks), a, b) <==> Precedes(keys, a, b)
  {
    if keys != [] {
      var rest := Outside(keys[1..], ks);
      OutsideKeepsOrder(keys[1..], ks, a, b);
      OutsideIs(keys[1..], ks);
      if keys[0] in ks {
        assert Outside(keys, ks) == rest;
      } else {
        assert Outside(keys, ks)[1..] == rest;
      }
    }
  }

  /** In a concatenation: within one of the parts, or from the first to the second. */
  lemma {:induction false} PrecedesConcat(x: seq<Sid>, y: seq<Sid>, a: Sid, b: Sid)
    ensures Precedes(x + y, a, b) <==> Precedes(x, a, b) || Precedes(y, a, b) || (a in x && b in y)
  {
    if x == [] {
      assert x + y == y;
    } else {
      assert (x + y)[1..] == x[1..] + y && x == [x[0]] + x[1..];
      PrecedesConcat(x[1..], y, a, b);
    }
  }

  lemma {:induction false} NoneTwice(keys: seq<Sid>, a: Sid)
    requires Distinct(keys)
    ensures !Precedes(keys, a, a)
  {
    if keys != [] {
      assert keys == [keys[0]] + keys[1..];
      assert forall i :: 0 <= i < |keys[1..]| ==> keys[1..][i] == keys[i + 1];
      NoneTwice(keys[1..], a);
    }
  }

  // ----- the touched session becomes the most recent one -----

  lemma TouchedIsLast<V>(d: Ordered<V>, sid: Sid, a: Sid, b: Sid)
    requires d.Valid() && a in d.values && b in d.values && a != sid
    ensures Precedes(d.Touch(sid).keys, a, b) <==> b == sid || Precedes(d.keys, a, b)
  {
    if sid in d.values {
      var rest := Without(d.keys, sid);
      WithoutIs(d.keys, sid);
      PrecedesConcat(rest, [sid], a, b);
      assert [sid][1..] == [];
      if b == sid {
        assert a in rest;
      } else {
        WithoutKeepsOrder(d.keys, sid, a, b);
      }
    }
  }

  lemma TouchedIsFirstOfNone<V>(d: Ordered<V>, sid: Sid, b: Sid)
    requires d.Valid() && sid in d.values
    ensures !Precedes(d.Touch(sid).keys, sid, b)
  {
    var rest := Without(d.keys, sid);
    WithoutIs(d.keys, sid);
    PrecedesConcat(rest, [sid], sid, b);
    assert [sid][1..] == [];
    if Precedes(rest, sid, b) {
      PrecedesIn(rest, sid, b);
    }
  }

  /** Of the sessions that stay, the touched one is the most recent, and the others are as recent as they were. */
  lemma RecencyAfterTouch(st: State, sid: Sid, a: Sid, b: Sid)
    requires Inv(st) && a != sid
    ensures var st' := Touch(st, sid).0;
            && (a in st'.cursors.values && b in st'.cursors.values ==>
                  (Precedes(st'.cursors.keys, a, b) <==> b == sid || Precedes(st.cursors.keys, a, b)))
            && (a in st'.generations.values && b in st'.generations.values ==>
                  (Precedes(st'.generations.keys, a, b) <==> b == sid || Precedes(st.generations.keys, a, b)))
  {
    TouchFacts(st, sid);
    var (st', dropped) := Touch(st, sid);
    if a in st'.cursors.values && b in st'.cursors.values {
      OutsideKeepsOrder(st.cursors.Touch(sid).keys, dropped, a, b);
      TouchedIsLast(st.cursors, sid, a, b);
    }
    if a in st'.generations.values && b in st'.generations.values {
      OutsideKeepsOrder(st.generations.Touch(sid).keys, dropped, a, b);
      TouchedIsLast(st.generations, sid, a, b);
    }
  }

  // ----- the oldest are forgotten -----

  lemma SplitPrecedes(keys: seq<Sid>, n: nat, e: Sid, k: Sid)
    requires n <= |keys| && e in keys[..n] && k in keys[n..]
    ensures Precedes(keys, e, k)
  {
    assert keys == keys[..n] + keys[n..];
    PrecedesConcat(keys[..n], keys[n..], e, k);
  }

  /** In the order of all known sessions a forgotten one stands before every one that stays. */
  lemma ForgottenPrecedes(cursors: Ordered<int>, generations: Ordered<string>, e: Sid, k: Sid)
    requires e in Expired(cursors, generations) && k in Known(cursors, generations) &&
             k !in Expired(cursors, generations)
    ensures Precedes(Known(cursors, generations), e, k)
  {
    var known := Known(cursors, generations);
    var n := |known| - MAX_REPLAY_SESSIONS;
    assert known == known[..n] + known[n..];
    SplitPrecedes(known, n, e, k);
  }

  lemma KnownOrder(cursors: Ordered<int>, generations: Ordered<string>, e: Sid, k: Sid)
    requires cursors.Valid() && generations.Valid() && Precedes(Known(cursors, generations), e, k)
    ensures k in cursors.values ==> e in cursors.values && Precedes(cursors.keys, e, k)
    ensures e !in cursors.values ==> e in generations.values && Precedes(generations.keys, e, k)
  {
    var a, b := cursors.keys, Outside(generations.keys, KeySet(cursors.keys));
    PrecedesConcat(a, b, e, k);
    OutsideIs(generations.keys, KeySet(a));
    if Precedes(a, e, k) {
      PrecedesIn(a, e, k);
    } else if Precedes(b, e, k) {
      PrecedesIn(b, e, k);
      OutsideKeepsOrder(generations.keys, KeySet(a), e, k);
    }
  }

  lemma KnownIs(cursors: Ordered<int>, generations: Ordered<string>, k: Sid)
    requires cursors.Valid() && generations.Valid()
    ensures k in Known(cursors, generations) <==> k in cursors.values || k in generations.values
  {
    OutsideIs(generations.keys, KeySet(cursors.keys));
  }

  /**
   Only what is beyond 128 is forgotten. No session with a cursor stays that is older than a forgotten one, and
   while a session of which only a generation is known is forgotten, no session with a cursor stays at all.
   */
  lemma OldestAreForgotten(st: State, sid: Sid, e: Sid, k: Sid)
    requires Inv(st) && e in Touch(st, sid).1 && k !in Touch(st, sid).1
    requires k in st.cursors.values || k in st.generations.values
    ensures e in st.cursors.values || e in st.generations.values
    ensures e in st.cursors.values && k in st.cursors.values ==>
              e != sid && (k == sid || Precedes(st.cursors.keys, e, k))
    ensures e !in st.cursors.values ==>
              k !in st.cursors.values && e != sid && (k == sid || Precedes(st.generations.keys, e, k))
  {
    var c, g := st.cursors.Touch(sid), st.generations.Touch(sid);
    TouchValid(st.cursors, sid);
    TouchValid(st.generations, sid);
    KnownIs(c, g, k);
    ForgottenPrecedes(c, g, e, k);
    KnownOrder(c, g, e, k);
    PrecedesIn(Known(c, g), e, k);
    KnownIs(c, g, e);
    if e in st.cursors.values {
      if k in st.cursors.values { OlderThan(st.cursors, sid, e, k); }
    } else {
      PrecedesIn(g.keys, e, k);
      OlderThan(st.generations, sid, e, k);
    }
  }

  lemma OlderThan<V>(d: Ordered<V>, sid: Sid, e: Sid, k: Sid)
    requires d.Valid() && e in d.values && k in d.values && Precedes(d.Touch(sid).keys, e, k)
    ensures e != sid && (k == sid || Precedes(d.keys, e, k))
  {
    if e == sid {
      TouchedIsFirstOfNone(d, sid, k);
    } else {
      TouchedIsLast(d, sid, e, k);
    }
  }

  /** And no more than that is forgotten. */
  lemma ForgottenCount(st: State, sid: Sid)
    requires Inv(st)
    ensures var known, dropped := st.cursors.values.Keys + st.generations.values.Keys, Touch(st, sid).1;
            dropped <= known && |dropped| == if |known| <= 128 then 0 else |known| - 128
  {
    TouchValid(st.cursors, sid);
    TouchValid(st.generations, sid);
    ExpiredCount(st.cursors.Touch(sid), st.generations.Touch(sid));
  }

  lemma ExpiredCount(c: Ordered<int>, g: Ordered<string>)
    requires c.Valid() && g.Valid()
    ensures var known := c.values.Keys + g.values.Keys;
            Expired(c, g) <= known && |Expired(c, g)| == if |known| <= 128 then 0 else |known| - 128
  {
    KnownDistinct(c, g);
    KnownSize(c, g);
    var known := Known(c, g);
    if |known| > 128 {
      PrefixSize(known, |known| - 128);
      forall k | k in known[..|known| - 128]
        ensures k in c.values.Keys + g.values.Keys
      {
        KnownIs(c, g, k);
      }
    }
  }

  lemma PrefixSize(keys: seq<Sid>, n: nat)
    requires n <= |keys| && Distinct(keys)
    ensures |KeySet(keys[..n])| == n
  {
    assert forall i :: 0 <= i < n ==> keys[..n][i] == keys[i];
    DistinctSize(keys[..n]);
  }
}
