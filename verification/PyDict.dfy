/** Python dicts of JSON values: insertion-ordered members, one per key. */
module PyDict {
  import opened Options
  import opened Json

  predicate Distinct(ms: seq<Member>) {
    forall i, j | 0 <= i < j < |ms| :: ms[i].key != ms[j].key
  }

  function KeyIndex(ms: seq<Member>, key: string): (j: nat)
    ensures j <= |ms| && forall i | 0 <= i < j :: ms[i].key != key
    ensures j < |ms| ==> ms[j].key == key
  {
    if ms == [] || ms[0].key == key then 0 else 1 + KeyIndex(ms[1..], key)
  }

  /** d[key] = value */
  function Set(ms: seq<Member>, key: string, value: Json): seq<Member> {
    var j := KeyIndex(ms, key);
    if j < |ms| then ms[j := Member(key, value)] else ms + [Member(key, value)]
  }

  /** d.update(ups); with an empty `ms`, dict(ups). */
  function Update(ms: seq<Member>, ups: seq<Member>): seq<Member>
    decreases |ups|
  {
    if ups == [] then ms
    else Update(Set(ms, ups[0].key, ups[0].value), ups[1..])
  }

  lemma {:induction false} SetDistinct(ms: seq<Member>, key: string, value: Json)
    requires Distinct(ms)
    ensures Distinct(Set(ms, key, value))
  {
  }

  lemma {:induction false} UpdateDistinct(ms: seq<Member>, ups: seq<Member>)
    requires Distinct(ms)
    ensures Distinct(Update(ms, ups))
    decreases |ups|
  {
    if ups != [] {
      SetDistinct(ms, ups[0].key, ups[0].value);
      UpdateDistinct(Set(ms, ups[0].key, ups[0].value), ups[1..]);
    }
  }

  lemma {:induction false} LookupFound(ms: seq<Member>, key: string, i: nat)
    requires Distinct(ms) && i < |ms| && ms[i].key == key
    ensures Lookup(ms, key) == Some(ms[i].value)
  {
    var n := |ms| - 1;
    if i < n {
      assert ms[n].key != ms[i].key;
      LookupFound(ms[..n], key, i);
    }
  }

  lemma {:induction false} LookupAbsent(ms: seq<Member>, key: string)
    ensures Lookup(ms, key) == None <==> forall i | 0 <= i < |ms| :: ms[i].key != key
  {
    if ms != [] {
      LookupAbsent(ms[..|ms| - 1], key);
    }
  }

  lemma {:induction false} LookupSet(ms: seq<Member>, key: string, value: Json, other: string)
    requires Distinct(ms)
    ensures Lookup(Set(ms, key, value), other) == if other == key then Some(value) else Lookup(ms, other)
  {
    var ms' := Set(ms, key, value);
    SetDistinct(ms, key, value);
    var i := KeyIndex(ms, other);
    if other == key {
      LookupFound(ms', key, i);
    } else if i < |ms| {
      LookupFound(ms, other, i);
      LookupFound(ms', other, i);
    } else {
      LookupAbsent(ms, other);
      LookupAbsent(ms', other);
    }
  }

  lemma {:induction false} LookupCons(m: Member, ms: seq<Member>, key: string)
    ensures Lookup([m] + ms, key)
         == if Lookup(ms, key).Some? then Lookup(ms, key) else if m.key == key then Some(m.value) else None
  {
    var all := [m] + ms;
    if ms == [] {
      assert all == [m] && all[..0] == [];
    } else {
      assert all[..|all| - 1] == [m] + ms[..|ms| - 1];
      LookupCons(m, ms[..|ms| - 1], key);
    }
  }

  /** After an update every updated key has its last new value and every other key its old one. */
  lemma {:induction false} LookupUpdate(ms: seq<Member>, ups: seq<Member>, key: string)
    requires Distinct(ms)
    ensures Lookup(Update(ms, ups), key) == if Lookup(ups, key).Some? then Lookup(ups, key) else Lookup(ms, key)
    decreases |ups|
  {
    if ups != [] {
      var u := ups[0];
      SetDistinct(ms, u.key, u.value);
      LookupSet(ms, u.key, u.value, key);
      LookupUpdate(Set(ms, u.key, u.value), ups[1..], key);
      assert ups == [u] + ups[1..];
      LookupCons(u, ups[1..], key);
    }
  }

  predicate SameKeys(a: seq<Member>, b: seq<Member>) {
    |a| == |b| && forall i | 0 <= i < |a| :: a[i].key == b[i].key
  }

  lemma {:induction false} UpdatePresent(ms: seq<Member>, ups: seq<Member>)
    requires forall i | 0 <= i < |ups| :: KeyIndex(ms, ups[i].key) < |ms|
    ensures SameKeys(Update(ms, ups), ms)
    decreases |ups|
  {
    if ups != [] {
      var ms' := Set(ms, ups[0].key, ups[0].value);
      forall i | 0 <= i < |ups[1..]| ensures KeyIndex(ms', ups[1..][i].key) < |ms'| {
        var j := KeyIndex(ms, ups[i + 1].key);
        assert ms'[j].key == ups[i + 1].key;
      }
      UpdatePresent(ms', ups[1..]);
    }
  }

  lemma {:induction false} SameLookups(a: seq<Member>, b: seq<Member>)
    requires SameKeys(a, b) && Distinct(a)
    requires forall i | 0 <= i < |a| :: Lookup(a, a[i].key) == Lookup(b, a[i].key)
    ensures a == b
  {
    forall i | 0 <= i < |a| ensures a[i] == b[i] {
      LookupFound(a, a[i].key, i);
      LookupFound(b, a[i].key, i);
    }
  }

  lemma {:induction false} UpdateHasKeys(ms: seq<Member>, ups: seq<Member>, key: string)
    requires Distinct(ms) && Lookup(ups, key).Some?
    ensures KeyIndex(Update(ms, ups), key) < |Update(ms, ups)|
  {
    LookupUpdate(ms, ups, key);
    LookupAbsent(Update(ms, ups), key);
  }

  /** Updating a second time with the same items changes neither a value nor the order. */
  lemma {:induction false} UpdateTwice(ms: seq<Member>, ups: seq<Member>)
    requires Distinct(ms)
    ensures Update(Update(ms, ups), ups) == Update(ms, ups)
  {
    var once := Update(ms, ups);
    var twice := Update(once, ups);
    UpdateDistinct(ms, ups);
    UpdateDistinct(once, ups);
    forall i | 0 <= i < |ups| ensures KeyIndex(once, ups[i].key) < |once| {
      LookupAbsent(ups, ups[i].key);
      UpdateHasKeys(ms, ups, ups[i].key);
    }
    UpdatePresent(once, ups);
    forall i | 0 <= i < |twice| ensures Lookup(twice, twice[i].key) == Lookup(once, twice[i].key) {
      LookupUpdate(once, ups, twice[i].key);
      LookupUpdate(ms, ups, twice[i].key);
    }
    SameLookups(twice, once);
  }

  /** An update changes nothing if and only if every updated key has its new value already. */
  lemma {:induction false} UpdateSame(ms: seq<Member>, ups: seq<Member>)
    requires Distinct(ms)
    ensures Update(ms, ups) == ms <==> forall i | 0 <= i < |ups| :: Lookup(ms, ups[i].key) == Lookup(ups, ups[i].key)
  {
    if Update(ms, ups) == ms {
      forall i | 0 <= i < |ups| ensures Lookup(ms, ups[i].key) == Lookup(ups, ups[i].key) {
        LookupUpdate(ms, ups, ups[i].key);
        LookupAbsent(ups, ups[i].key);
      }
    } else if forall i | 0 <= i < |ups| :: Lookup(ms, ups[i].key) == Lookup(ups, ups[i].key) {
      UpdateStays(ms, ups);
    }
  }

  lemma {:induction false} UpdateStays(ms: seq<Member>, ups: seq<Member>)
    requires Distinct(ms) && forall i | 0 <= i < |ups| :: Lookup(ms, ups[i].key) == Lookup(ups, ups[i].key)
    ensures Update(ms, ups) == ms
  {
    forall i | 0 <= i < |ups| ensures KeyIndex(ms, ups[i].key) < |ms| {
      LookupAbsent(ups, ups[i].key);
      LookupAbsent(ms, ups[i].key);
    }
    UpdatePresent(ms, ups);
    UpdateDistinct(ms, ups);
    var r := Update(ms, ups);
    forall i | 0 <= i < |r| ensures Lookup(r, r[i].key) == Lookup(ms, r[i].key) {
      LookupUpdate(ms, ups, r[i].key);
      LookupIndex(ups, r[i].key);
    }
    SameLookups(r, ms);
  }

  /** A key that is found is the key of some member. */
  lemma {:induction false} LookupIndex(ms: seq<Member>, key: string)
    ensures Lookup(ms, key).Some? ==> exists i | 0 <= i < |ms| :: ms[i].key == key
  {
    LookupAbsent(ms, key);
  }

  lemma {:induction false} UpdateConcat(ms: seq<Member>, a: seq<Member>, b: seq<Member>)
    ensures Update(ms, a + b) == Update(Update(ms, a), b)
    decreases |a|
  {
    if a == [] {
      assert a + b == b;
    } else {
      assert (a + b)[1..] == a[1..] + b;
      UpdateConcat(Set(ms, a[0].key, a[0].value), a[1..], b);
    }
  }

  /** dict(d) is d. */
  lemma {:induction false} CopyDistinct(ms: seq<Member>)
    requires Distinct(ms)
    ensures Update([], ms) == ms
  {
    if ms != [] {
      var n := |ms| - 1;
      CopyDistinct(ms[..n]);
      assert ms == ms[..n] + [ms[n]];
      UpdateConcat([], ms[..n], [ms[n]]);
      var init := ms[..n];
      assert Update(init, [ms[n]]) == Set(init, ms[n].key, ms[n].value);
      assert KeyIndex(init, ms[n].key) == n;
    }
  }

  lemma {:induction false} UpdateWellFormed(ms: seq<Member>, ups: seq<Member>)
    requires forall i | 0 <= i < |ms| :: WellFormed(ms[i].value)
    requires forall i | 0 <= i < |ups| :: WellFormed(ups[i].value)
    ensures forall i | 0 <= i < |Update(ms, ups)| :: WellFormed(Update(ms, ups)[i].value)
    decreases |ups|
  {
    if ups != [] {
      UpdateWellFormed(Set(ms, ups[0].key, ups[0].value), ups[1..]);
    }
  }
}
