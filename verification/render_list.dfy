/** The render list of a scene: an ordered list of scene-object handles.
    `CoreScene` keeps a `std::list` of pointers into a pool that is never
    resized, so two entries are the same object exactly when their handles
    are equal; the list is modelled as a sequence of handles. */
module RenderList {

  /** No handle occurs twice in the list. */
  predicate NoDuplicates(list: seq<int>) {
    forall i, j :: 0 <= i < j < |list| ==> list[i] != list[j]
  }

  /** `std::find` over the list: the position of the first occurrence of `h`,
      or `|list|` (the end iterator) when `h` does not occur. */
  function Find(list: seq<int>, h: int): (i: nat)
    ensures i <= |list|
    ensures i < |list| ==> list[i] == h
    ensures forall j :: 0 <= j < i ==> list[j] != h
  {
    if |list| == 0 then 0
    else if list[0] == h then 0
    else 1 + Find(list[1..], h)
  }

  /** Appends `h` unless it is already present. */
  function Add(list: seq<int>, h: int): (r: seq<int>)
    ensures h in list ==> r == list
    ensures h !in list ==> r == list + [h]
    ensures forall x :: x in r <==> x in list || x == h
    ensures NoDuplicates(list) ==> NoDuplicates(r)
  {
    if Find(list, h) == |list| then list + [h] else list
  }

  /** What removing a handle reports: whether it was found, and the list left. */
  datatype Removal = Removal(found: bool, rest: seq<int>)

  /** Erases the first occurrence of `h`, if any, and reports whether there was one. */
  function Remove(list: seq<int>, h: int): (r: Removal)
    ensures r.found <==> h in list
    ensures !r.found ==> r.rest == list
    ensures r.found ==>
      exists i :: 0 <= i < |list| && list[i] == h && h !in list[..i]
        && r.rest == list[..i] + list[i + 1..]
    ensures r.found ==> |r.rest| == |list| - 1
    ensures multiset(r.rest) == multiset(list) - multiset{h}
    ensures NoDuplicates(list) ==> NoDuplicates(r.rest) && h !in r.rest
  {
    var i := Find(list, h);
    if i == |list| then
      Removal(false, list)
    else
      EraseAt(list, i);
      Removal(true, list[..i] + list[i + 1..])
  }

  /** Facts about erasing the element at position `i`. */
  lemma EraseAt(list: seq<int>, i: nat)
    requires i < |list|
    ensures |list[..i] + list[i + 1..]| == |list| - 1
    ensures multiset(list[..i] + list[i + 1..]) == multiset(list) - multiset{list[i]}
    ensures NoDuplicates(list) ==>
      NoDuplicates(list[..i] + list[i + 1..]) && list[i] !in list[..i] + list[i + 1..]
  {
    var rest := list[..i] + list[i + 1..];
    assert list == list[..i] + [list[i]] + list[i + 1..];
    assert multiset(list) == multiset(list[..i]) + multiset{list[i]} + multiset(list[i + 1..]);
    if NoDuplicates(list) {
      forall k | 0 <= k < |rest|
        ensures rest[k] == if k < i then list[k] else list[k + 1]
      {
      }
      forall a, b | 0 <= a < b < |rest| ensures rest[a] != rest[b] {
        var a' := if a < i then a else a + 1;
        var b' := if b < i then b else b + 1;
        assert rest[a] == list[a'] && rest[b] == list[b'];
      }
      forall k | 0 <= k < |rest| ensures rest[k] != list[i] {
        var k' := if k < i then k else k + 1;
        assert rest[k] == list[k'];
      }
    }
  }

  /** Reference definition: the list with every occurrence of `h` filtered out. */
  function Without(list: seq<int>, h: int): seq<int> {
    if |list| == 0 then []
    else (if list[0] == h then [] else [list[0]]) + Without(list[1..], h)
  }

  lemma {:induction false} WithoutAbsent(list: seq<int>, h: int)
    requires h !in list
    ensures Without(list, h) == list
  {
    if |list| > 0 {
      WithoutAbsent(list[1..], h);
    }
  }

  /** Removal passes over a leading element other than `h`. */
  lemma RemoveCons(list: seq<int>, h: int)
    requires |list| > 0 && list[0] != h
    ensures Remove(list, h).rest == [list[0]] + Remove(list[1..], h).rest
  {
    var tail := list[1..];
    var i := Find(list, h);
    assert i == 1 + Find(tail, h);
    if i < |list| {
      assert list[..i] == [list[0]] + tail[..i - 1];
      assert list[i + 1..] == tail[i..];
    }
  }

  /** On a duplicate-free list, removing a handle is the same as filtering it out. */
  lemma {:induction false} RemoveIsFilter(list: seq<int>, h: int)
    requires NoDuplicates(list)
    ensures Remove(list, h).rest == Without(list, h)
  {
    if |list| == 0 {
    } else {
      var tail := list[1..];
      if list[0] == h {
        assert h !in tail by {
          forall k | 0 <= k < |tail| ensures tail[k] != h {
            assert tail[k] == list[k + 1];
          }
        }
        WithoutAbsent(tail, h);
        assert list[1..] == tail;
      } else {
        assert NoDuplicates(tail) by {
          forall i, j | 0 <= i < j < |tail| ensures tail[i] != tail[j] {
            assert tail[i] == list[i + 1] && tail[j] == list[j + 1];
          }
        }
        RemoveIsFilter(tail, h);
        RemoveCons(list, h);
      }
    }
  }

  /** Adding a handle twice has the effect of adding it once. */
  lemma AddIdempotent(list: seq<int>, h: int)
    ensures Add(Add(list, h), h) == Add(list, h)
  {
  }

  /** Adding an absent handle and then removing it reports success and
      restores the original list. */
  lemma AddThenRemove(list: seq<int>, h: int)
    requires h !in list
    ensures Remove(Add(list, h), h) == Removal(true, list)
  {
  }
}
