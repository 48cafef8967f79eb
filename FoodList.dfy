/** The three list updates the dashboard applies to its food list after a
    successful request: append (array spread), replace by id (`map`) and
    remove by id (`filter`). */
module FoodList {
  import opened Food

  /** Some entry of `s` carries `id`. */
  predicate HasId(s: seq<FoodItem>, id: string) {
    exists i :: 0 <= i < |s| && s[i].id == id
  }

  /** No two entries of `s` share an id, as on the server. */
  predicate UniqueIds(s: seq<FoodItem>) {
    forall i, j :: 0 <= i < j < |s| ==> s[i].id != s[j].id
  }

  /** The number of entries of `s` that carry `id`. */
  function CountId(s: seq<FoodItem>, id: string): (n: nat)
    ensures n <= |s|
  {
    if s == [] then 0
    else (if s[0].id == id then 1 else 0) + CountId(s[1..], id)
  }

  /** `a` is `b` with some entries dropped, the rest in their original order. */
  predicate IsSubsequence(a: seq<FoodItem>, b: seq<FoodItem>)
    decreases |b|
  {
    if a == [] then true
    else if b == [] then false
    else if a[0] == b[0] then IsSubsequence(a[1..], b[1..])
    else IsSubsequence(a, b[1..])
  }

  /** `[...foods, item]`. */
  function Append(s: seq<FoodItem>, item: FoodItem): (r: seq<FoodItem>)
    ensures |r| == |s| + 1
    ensures r[..|s|] == s
    ensures r[|s|] == item
  {
    s + [item]
  }

  /** `foods.map(food => food.id !== item.id ? food : item)`. */
  function ReplaceById(s: seq<FoodItem>, item: FoodItem): (r: seq<FoodItem>)
    ensures |r| == |s|
    ensures forall i :: 0 <= i < |s| ==>
      r[i] == if s[i].id == item.id then item else s[i]
  {
    if s == [] then []
    else [if s[0].id != item.id then s[0] else item] + ReplaceById(s[1..], item)
  }

  /** `foods.filter(food => food.id !== id)`. */
  function RemoveById(s: seq<FoodItem>, id: string): (r: seq<FoodItem>)
    ensures |r| == |s| - CountId(s, id)
    ensures forall i :: 0 <= i < |r| ==> r[i].id != id
  {
    if s == [] then []
    else (if s[0].id != id then [s[0]] else []) + RemoveById(s[1..], id)
  }

  // ---------------------------------------------------------------------
  // CountId

  lemma {:induction false} CountIdConcat(a: seq<FoodItem>, b: seq<FoodItem>, id: string)
    ensures CountId(a + b, id) == CountId(a, id) + CountId(b, id)
  {
    if a == [] {
      assert a + b == b;
    } else {
      assert (a + b)[1..] == a[1..] + b;
      CountIdConcat(a[1..], b, id);
    }
  }

  /** An id is counted exactly when some entry carries it. */
  lemma {:induction false} CountIdPositive(s: seq<FoodItem>, id: string)
    ensures CountId(s, id) > 0 <==> HasId(s, id)
  {
    if s != [] {
      CountIdPositive(s[1..], id);
      HasIdCons(s, id);
    }
  }

  /** `s` carries `id` exactly when its head or its tail does. */
  lemma HasIdCons(s: seq<FoodItem>, id: string)
    requires s != []
    ensures HasId(s, id) <==> s[0].id == id || HasId(s[1..], id)
  {
    if HasId(s, id) && s[0].id != id {
      var i :| 0 <= i < |s| && s[i].id == id;
      assert s[1..][i - 1] == s[i];
    }
    if HasId(s[1..], id) {
      var i :| 0 <= i < |s[1..]| && s[1..][i].id == id;
      assert s[i + 1] == s[1..][i];
    }
  }

  /** With unique ids, an id that occurs occurs exactly once. */
  lemma {:induction false} CountIdUnique(s: seq<FoodItem>, id: string)
    requires UniqueIds(s)
    ensures CountId(s, id) == if HasId(s, id) then 1 else 0
  {
    if s != [] {
      assert UniqueIds(s[1..]) by {
        forall i, j | 0 <= i < j < |s[1..]| ensures s[1..][i].id != s[1..][j].id {
          assert s[1..][i] == s[i + 1] && s[1..][j] == s[j + 1];
        }
      }
      CountIdUnique(s[1..], id);
      HasIdCons(s, id);
      if s[0].id == id {
        forall i | 0 <= i < |s[1..]| ensures s[1..][i].id != id {
          assert s[1..][i] == s[i + 1];
        }
      }
    }
  }

  // ---------------------------------------------------------------------
  // Append

  /** A server-assigned, fresh id keeps the ids unique, and the new item is
      then the only entry with its id. */
  lemma AppendFresh(s: seq<FoodItem>, item: FoodItem)
    requires UniqueIds(s) && !HasId(s, item.id)
    ensures UniqueIds(Append(s, item))
    ensures CountId(Append(s, item), item.id) == 1
  {
    var r := Append(s, item);
    forall i, j | 0 <= i < j < |r| ensures r[i].id != r[j].id {
      if j == |s| {
        assert r[i] == s[i];
      } else {
        assert r[i] == s[i] && r[j] == s[j];
      }
    }
    CountIdConcat(s, [item], item.id);
    CountIdPositive(s, item.id);
    assert CountId([item], item.id) == 1;
  }

  // ---------------------------------------------------------------------
  // ReplaceById

  /** Replacing never changes the id found at any index. */
  lemma ReplaceKeepsIds(s: seq<FoodItem>, item: FoodItem)
    ensures forall i :: 0 <= i < |s| ==> ReplaceById(s, item)[i].id == s[i].id
    ensures UniqueIds(s) ==> UniqueIds(ReplaceById(s, item))
  {
  }

  /** With unique ids the replacement touches exactly the one matching index. */
  lemma ReplaceUnique(s: seq<FoodItem>, item: FoodItem, k: nat)
    requires UniqueIds(s) && k < |s| && s[k].id == item.id
    ensures ReplaceById(s, item) == s[k := item]
  {
    var r := ReplaceById(s, item);
    assert forall i :: 0 <= i < |s| ==> r[i] == s[k := item][i];
  }

  /** A response whose id is not listed leaves the list as it was. */
  lemma ReplaceAbsent(s: seq<FoodItem>, item: FoodItem)
    requires !HasId(s, item.id)
    ensures ReplaceById(s, item) == s
  {
    var r := ReplaceById(s, item);
    assert forall i :: 0 <= i < |s| ==> r[i] == s[i];
  }

  /** Applying the same update twice is the same as applying it once. */
  lemma ReplaceIdempotent(s: seq<FoodItem>, item: FoodItem)
    ensures ReplaceById(ReplaceById(s, item), item) == ReplaceById(s, item)
  {
    var r := ReplaceById(s, item);
    var rr := ReplaceById(r, item);
    assert forall i :: 0 <= i < |s| ==> rr[i] == r[i];
  }

  // ---------------------------------------------------------------------
  // RemoveById

  /** Filtering distributes over concatenation. */
  lemma {:induction false} RemoveConcat(a: seq<FoodItem>, b: seq<FoodItem>, id: string)
    ensures RemoveById(a + b, id) == RemoveById(a, id) + RemoveById(b, id)
  {
    if a == [] {
      assert a + b == b;
    } else {
      assert (a + b)[1..] == a[1..] + b;
      RemoveConcat(a[1..], b, id);
    }
  }

  /** Deleting an id that is not listed leaves the list as it was. */
  lemma {:induction false} RemoveAbsent(s: seq<FoodItem>, id: string)
    requires !HasId(s, id)
    ensures RemoveById(s, id) == s
  {
    if s != [] {
      assert !HasId(s[1..], id) by {
        forall i | 0 <= i < |s[1..]| ensures s[1..][i].id != id {
          assert s[1..][i] == s[i + 1];
        }
      }
      RemoveAbsent(s[1..], id);
      assert s[0].id != id;
      assert [s[0]] + s[1..] == s;
    }
  }

  /** The result keeps every other entry, in order: it is a subsequence. */
  lemma {:induction false} RemoveIsSubsequence(s: seq<FoodItem>, id: string)
    ensures IsSubsequence(RemoveById(s, id), s)
  {
    if s != [] {
      RemoveIsSubsequence(s[1..], id);
      var rest := RemoveById(s[1..], id);
      if s[0].id != id {
        assert RemoveById(s, id) == [s[0]] + rest;
        assert ([s[0]] + rest)[1..] == rest;
      } else {
        assert RemoveById(s, id) == rest;
        SubsequenceDropHead(rest, s);
      }
    }
  }

  /** A subsequence of the tail is a subsequence of the whole. */
  lemma {:induction false} SubsequenceDropHead(a: seq<FoodItem>, b: seq<FoodItem>)
    requires b != [] && IsSubsequence(a, b[1..])
    ensures IsSubsequence(a, b)
    decreases |b|, 0
  {
    if a != [] && a[0] == b[0] {
      SubsequenceTail(a, b[1..]);
    }
  }

  /** Dropping the first entry of a subsequence keeps it a subsequence. */
  lemma {:induction false} SubsequenceTail(a: seq<FoodItem>, b: seq<FoodItem>)
    requires a != [] && IsSubsequence(a, b)
    ensures IsSubsequence(a[1..], b)
    decreases |b|, 1
  {
    if a[0] != b[0] {
      SubsequenceTail(a, b[1..]);
    }
    SubsequenceDropHead(a[1..], b);
  }

  /** Entry by entry, deletion keeps every copy of the others and none of the
      matching ones. */
  lemma {:induction false} RemoveMultiset(s: seq<FoodItem>, id: string, e: FoodItem)
    ensures multiset(RemoveById(s, id))[e] == if e.id == id then 0 else multiset(s)[e]
  {
    if s != [] {
      RemoveMultiset(s[1..], id, e);
      assert s == [s[0]] + s[1..];
    }
  }

  /** With unique ids, the id at index `k` occurs neither before nor after it. */
  lemma UniqueIdsSplit(s: seq<FoodItem>, k: nat)
    requires UniqueIds(s) && k < |s|
    ensures !HasId(s[..k], s[k].id) && !HasId(s[k + 1..], s[k].id)
  {
    var before, after := s[..k], s[k + 1..];
    forall i | 0 <= i < |before| ensures before[i].id != s[k].id {
      assert before[i] == s[i];
    }
    forall i | 0 <= i < |after| ensures after[i].id != s[k].id {
      assert after[i] == s[k + 1 + i];
    }
  }

  /** Deleting the id of the only entry that carries it removes that entry. */
  lemma RemoveSingle(before: seq<FoodItem>, x: FoodItem, after: seq<FoodItem>)
    requires !HasId(before, x.id) && !HasId(after, x.id)
    ensures RemoveById(before + ([x] + after), x.id) == before + after
  {
    calc {
      RemoveById(before + ([x] + after), x.id);
      { RemoveConcat(before, [x] + after, x.id); }
      RemoveById(before, x.id) + RemoveById([x] + after, x.id);
      { RemoveAbsent(before, x.id); }
      before + RemoveById([x] + after, x.id);
      { RemoveConcat([x], after, x.id); RemoveDropsItem(x); }
      before + RemoveById(after, x.id);
      { RemoveAbsent(after, x.id); }
      before + after;
    }
  }

  lemma RemoveDropsItem(x: FoodItem)
    ensures RemoveById([x], x.id) == []
  {
    assert [x][1..] == [];
  }

  /** The entries kept by a deletion are exactly the entries with another id. */
  lemma RemoveMembers(s: seq<FoodItem>, id: string)
    ensures forall e :: e in RemoveById(s, id) <==> e in s && e.id != id
  {
    forall e ensures e in RemoveById(s, id) <==> e in s && e.id != id {
      RemoveMultiset(s, id, e);
    }
  }

  /** With unique ids, deleting a listed id removes exactly that one entry. */
  lemma RemoveUnique(s: seq<FoodItem>, id: string, k: nat)
    requires UniqueIds(s) && k < |s| && s[k].id == id
    ensures RemoveById(s, id) == s[..k] + s[k + 1..]
    ensures |RemoveById(s, id)| == |s| - 1
  {
    UniqueIdsSplit(s, k);
    assert s == s[..k] + ([s[k]] + s[k + 1..]);
    RemoveSingle(s[..k], s[k], s[k + 1..]);
  }

  /** Deleting twice is the same as deleting once. */
  lemma RemoveIdempotent(s: seq<FoodItem>, id: string)
    ensures RemoveById(RemoveById(s, id), id) == RemoveById(s, id)
  {
    var r := RemoveById(s, id);
    assert !HasId(r, id);
    RemoveAbsent(r, id);
  }

  /** Deletion keeps the ids unique. */
  lemma RemoveKeepsUniqueIds(s: seq<FoodItem>, id: string)
    requires UniqueIds(s)
    ensures UniqueIds(RemoveById(s, id))
  {
    var r := RemoveById(s, id);
    RemoveIsSubsequence(s, id);
    SubsequenceUniqueIds(r, s);
  }

  /** A subsequence of a list with unique ids has unique ids. */
  lemma {:induction false} SubsequenceUniqueIds(a: seq<FoodItem>, b: seq<FoodItem>)
    requires IsSubsequence(a, b) && UniqueIds(b)
    ensures UniqueIds(a)
    decreases |b|
  {
    if a != [] {
      assert b != [];
      assert UniqueIds(b[1..]) by {
        forall i, j | 0 <= i < j < |b[1..]| ensures b[1..][i].id != b[1..][j].id {
          assert b[1..][i] == b[i + 1] && b[1..][j] == b[j + 1];
        }
      }
      if a[0] == b[0] {
        SubsequenceUniqueIds(a[1..], b[1..]);
        SubsequenceMembers(a[1..], b[1..]);
        forall i, j | 0 <= i < j < |a| ensures a[i].id != a[j].id {
          if i == 0 {
            assert a[1..][j - 1] == a[j];
            assert a[j] in b[1..];
            var m :| 0 <= m < |b[1..]| && b[1..][m] == a[j];
            assert b[m + 1] == a[j];
          } else {
            assert a[1..][i - 1] == a[i] && a[1..][j - 1] == a[j];
          }
        }
      } else {
        SubsequenceUniqueIds(a, b[1..]);
      }
    }
  }

  /** Every entry of a subsequence is an entry of the whole. */
  lemma {:induction false} SubsequenceMembers(a: seq<FoodItem>, b: seq<FoodItem>)
    requires IsSubsequence(a, b)
    ensures forall e :: e in a ==> e in b
    decreases |b|
  {
    if a != [] {
      assert b != [];
      if a[0] == b[0] {
        SubsequenceMembers(a[1..], b[1..]);
        assert a == [a[0]] + a[1..];
        assert b == [b[0]] + b[1..];
      } else {
        SubsequenceMembers(a, b[1..]);
        assert b == [b[0]] + b[1..];
      }
    }
  }
}
