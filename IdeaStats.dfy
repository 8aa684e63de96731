/**
 * The vote statistics table: a score and a total per idea, the ideas ordered
 * by a chosen key in a chosen direction, and the header click that picks the
 * key or flips the direction. The list is sorted as a copy; the ideas passed
 * in are never reordered.
 */
module IdeaStats {
  import opened IdeaTypes
  import opened Text

  /** An idea as the table receives it: text and the three vote counters. */
  datatype IdeaStat = IdeaStat(title: string, description: string, votes: Votes)

  /** The columns the table can be sorted by. */
  datatype SortKey = SuperLikeKey | UpKey | NeutralKey | TotalKey | ScoreKey

  datatype SortOrder = Asc | Desc

  /** The number of votes of any kind. */
  function Total(idea: IdeaStat): (t: nat)
    ensures t == 0 <==> idea.votes.superLike == 0 && idea.votes.up == 0 && idea.votes.neutral == 0
  {
    idea.votes.superLike + idea.votes.up + idea.votes.neutral
  }

  /**
   * The weighted score: a super like is worth 3, an up vote 2 and a neutral
   * vote 1, so the score lies between the total and three times the total.
   */
  function Score(idea: IdeaStat): (s: nat)
    ensures Total(idea) <= s <= 3 * Total(idea)
    ensures s == Total(idea) <==> idea.votes.superLike == 0 && idea.votes.up == 0
    ensures s == 3 * Total(idea) <==> idea.votes.up == 0 && idea.votes.neutral == 0
  {
    idea.votes.superLike * 3 + idea.votes.up * 2 + idea.votes.neutral * 1
  }

  /** The value the comparator reads for `key`. */
  function KeyValue(idea: IdeaStat, key: SortKey): (v: nat)
    ensures v <= Score(idea)
    ensures key != ScoreKey ==> v <= Total(idea)
  {
    match key
    case SuperLikeKey => idea.votes.superLike
    case UpKey => idea.votes.up
    case NeutralKey => idea.votes.neutral
    case TotalKey => Total(idea)
    case ScoreKey => Score(idea)
  }

  /**
   * The comparator handed to the sort: negative or zero keeps `a` before `b`.
   * Descending puts the larger key first, ascending the smaller.
   */
  function Compare(a: IdeaStat, b: IdeaStat, key: SortKey, order: SortOrder): (c: int)
    ensures order == Desc ==> (c <= 0 <==> KeyValue(a, key) >= KeyValue(b, key))
    ensures order == Asc ==> (c <= 0 <==> KeyValue(a, key) <= KeyValue(b, key))
  {
    var aValue := KeyValue(a, key);
    var bValue := KeyValue(b, key);
    if order == Desc then bValue - aValue else aValue - bValue
  }

  /** Key value `u` may come before key value `v` in `order`. */
  predicate Precedes(u: int, v: int, order: SortOrder) {
    if order == Desc then u >= v else u <= v
  }

  /** The key is non-increasing along `s` under `Desc` and non-decreasing under `Asc`. */
  predicate Ranked(s: seq<IdeaStat>, key: SortKey, order: SortOrder) {
    forall i, j :: 0 <= i < j < |s| ==> Precedes(KeyValue(s[i], key), KeyValue(s[j], key), order)
  }

  /**
   * Inserts `x` before the first element it may precede, equal ones
   * included. The sort inserts each idea into the sorted rest of the input,
   * so `x` comes first in the input among equal keys and the sort is stable.
   */
  function Insert(x: IdeaStat, s: seq<IdeaStat>, key: SortKey, order: SortOrder): (r: seq<IdeaStat>)
    ensures multiset(r) == multiset(s) + multiset{x}
  {
    if |s| == 0 then [x]
    else if Compare(x, s[0], key, order) <= 0 then [x] + s
    else
      var tail := s[1..];
      assert multiset(s) == multiset{s[0]} + multiset(tail) by {
        assert s == [s[0]] + tail;
      }
      [s[0]] + Insert(x, tail, key, order)
  }

  /**
   * The result of sorting a copy of `ideas` with the comparator: a stable
   * sort, as the language's array sort is required to be, written as an
   * insertion sort. It holds exactly the ideas given, each as often as given.
   */
  function SortBy(ideas: seq<IdeaStat>, key: SortKey, order: SortOrder): (r: seq<IdeaStat>)
    ensures multiset(r) == multiset(ideas)
  {
    if |ideas| == 0 then []
    else
      var rest := ideas[1..];
      assert multiset(ideas) == multiset(rest) + multiset{ideas[0]} by {
        assert ideas == [ideas[0]] + rest;
      }
      Insert(ideas[0], SortBy(rest, key, order), key, order)
  }

  /** Inserting adds `x` and nothing else. */
  lemma InsertElements(x: IdeaStat, s: seq<IdeaStat>, key: SortKey, order: SortOrder)
    ensures forall y :: y in Insert(x, s, key, order) ==> y == x || y in s
  {
    forall y | y in Insert(x, s, key, order) ensures y == x || y in s {
      assert y in multiset(Insert(x, s, key, order));
    }
  }

  /** An element that may precede every element of a ranked sequence may go in front of it. */
  lemma ConsRanked(h: IdeaStat, r: seq<IdeaStat>, key: SortKey, order: SortOrder)
    requires Ranked(r, key, order)
    requires forall y :: y in r ==> Precedes(KeyValue(h, key), KeyValue(y, key), order)
    ensures Ranked([h] + r, key, order)
  {
    var full := [h] + r;
    forall i, j | 0 <= i < j < |full|
      ensures Precedes(KeyValue(full[i], key), KeyValue(full[j], key), order)
    {
      if i == 0 {
        assert full[j] == r[j - 1] && r[j - 1] in r;
      } else {
        assert full[i] == r[i - 1] && full[j] == r[j - 1];
      }
    }
  }

  /** The head of a ranked sequence may precede every element of it. */
  lemma HeadPrecedes(s: seq<IdeaStat>, key: SortKey, order: SortOrder)
    requires |s| > 0 && Ranked(s, key, order)
    ensures Ranked(s[1..], key, order)
    ensures forall y :: y in s[1..] ==> Precedes(KeyValue(s[0], key), KeyValue(y, key), order)
  {
    var tail := s[1..];
    forall i, j | 0 <= i < j < |tail|
      ensures Precedes(KeyValue(tail[i], key), KeyValue(tail[j], key), order)
    {
      assert tail[i] == s[i + 1] && tail[j] == s[j + 1];
    }
    forall y | y in tail ensures Precedes(KeyValue(s[0], key), KeyValue(y, key), order) {
      var j :| 0 <= j < |tail| && tail[j] == y;
      assert s[j + 1] == y;
    }
  }

  lemma {:induction false} InsertRanked(x: IdeaStat, s: seq<IdeaStat>, key: SortKey, order: SortOrder)
    requires Ranked(s, key, order)
    ensures Ranked(Insert(x, s, key, order), key, order)
  {
    if |s| > 0 {
      HeadPrecedes(s, key, order);
      var tail := s[1..];
      if Compare(x, s[0], key, order) > 0 {
        InsertRanked(x, tail, key, order);
        InsertElements(x, tail, key, order);
        ConsRanked(s[0], Insert(x, tail, key, order), key, order);
      } else {
        assert s == [s[0]] + tail;
        ConsRanked(x, s, key, order);
      }
    }
  }

  /** The sorted copy is ordered by the key in the direction chosen. */
  lemma {:induction false} SortRanked(ideas: seq<IdeaStat>, key: SortKey, order: SortOrder)
    ensures Ranked(SortBy(ideas, key, order), key, order)
  {
    if |ideas| > 0 {
      SortRanked(ideas[1..], key, order);
      InsertRanked(ideas[0], SortBy(ideas[1..], key, order), key, order);
    }
  }

  /** `[y]` when `y` has key value `v`, otherwise nothing. */
  function KeyPart(y: IdeaStat, key: SortKey, v: nat): seq<IdeaStat> {
    if KeyValue(y, key) == v then [y] else []
  }

  /** The ideas of `s` whose key value is `v`, in their order in `s`. */
  function WithKey(s: seq<IdeaStat>, key: SortKey, v: nat): seq<IdeaStat> {
    if |s| == 0 then [] else KeyPart(s[0], key, v) + WithKey(s[1..], key, v)
  }

  lemma WithKeyCons(y: IdeaStat, s: seq<IdeaStat>, key: SortKey, v: nat)
    ensures WithKey([y] + s, key, v) == KeyPart(y, key, v) + WithKey(s, key, v)
  {
    assert ([y] + s)[1..] == s;
  }

  /** The comparator lets `x` pass over `y` only when their key values differ. */
  lemma PassOverDiffers(x: IdeaStat, y: IdeaStat, key: SortKey, order: SortOrder)
    requires Compare(x, y, key, order) > 0
    ensures KeyValue(x, key) != KeyValue(y, key)
  {
  }

  lemma SwapParts(a: seq<IdeaStat>, b: seq<IdeaStat>, rest: seq<IdeaStat>)
    requires a == [] || b == []
    ensures a + (b + rest) == b + (a + rest)
  {
    if a == [] {
      assert a + (b + rest) == b + rest && a + rest == rest;
    } else {
      assert b + (a + rest) == a + rest && b + rest == rest;
    }
  }

  /** Passing over `y` with a different key value keeps `x` in front of its equals. */
  lemma PassOverWithKey(x: IdeaStat, y: IdeaStat, inserted: seq<IdeaStat>, tail: seq<IdeaStat>, key: SortKey, v: nat)
    requires KeyValue(x, key) != KeyValue(y, key)
    requires WithKey(inserted, key, v) == KeyPart(x, key, v) + WithKey(tail, key, v)
    ensures WithKey([y] + inserted, key, v) == KeyPart(x, key, v) + WithKey([y] + tail, key, v)
  {
    WithKeyCons(y, inserted, key, v);
    WithKeyCons(y, tail, key, v);
    SwapParts(KeyPart(y, key, v), KeyPart(x, key, v), WithKey(tail, key, v));
  }

  /** Inserting `x` puts it in front of every element with the same key value. */
  lemma {:induction false} InsertWithKey(x: IdeaStat, s: seq<IdeaStat>, key: SortKey, order: SortOrder, v: nat)
    ensures WithKey(Insert(x, s, key, order), key, v) == KeyPart(x, key, v) + WithKey(s, key, v)
  {
    if |s| == 0 {
      WithKeyCons(x, [], key, v);
      assert [x] + [] == [x];
    } else if Compare(x, s[0], key, order) <= 0 {
      WithKeyCons(x, s, key, v);
    } else {
      var tail := s[1..];
      assert Insert(x, s, key, order) == [s[0]] + Insert(x, tail, key, order);
      assert s == [s[0]] + tail;
      InsertWithKey(x, tail, key, order, v);
      PassOverDiffers(x, s[0], key, order);
      PassOverWithKey(x, s[0], Insert(x, tail, key, order), tail, key, v);
    }
  }

  /** The sort is stable: the ideas sharing a key value keep their input order. */
  lemma {:induction false} SortStable(ideas: seq<IdeaStat>, key: SortKey, order: SortOrder, v: nat)
    ensures WithKey(SortBy(ideas, key, order), key, v) == WithKey(ideas, key, v)
  {
    if |ideas| > 0 {
      SortStable(ideas[1..], key, order, v);
      InsertWithKey(ideas[0], SortBy(ideas[1..], key, order), key, order, v);
    }
  }

  /** The sort state: the column and the direction. */
  datatype SortSetting = SortSetting(sortBy: SortKey, sortOrder: SortOrder)

  /** The table starts sorted by score, highest first. */
  const Initial := SortSetting(ScoreKey, Desc)

  /**
   * A click on column `key`: the current column flips its direction; any
   * other column becomes current, highest first.
   */
  function Toggle(s: SortSetting, key: SortKey): (r: SortSetting)
    ensures r.sortBy == key
    ensures s.sortBy == key ==> r.sortOrder != s.sortOrder
    ensures s.sortBy != key ==> r.sortOrder == Desc
  {
    if s.sortBy == key then SortSetting(key, if s.sortOrder == Asc then Desc else Asc)
    else SortSetting(key, Desc)
  }

  /** Clicking the current column twice gives back the state before. */
  lemma ToggleTwice(s: SortSetting, key: SortKey)
    requires s.sortBy == key
    ensures Toggle(Toggle(s, key), key) == s
  {
  }

  /** Clicking another column twice sorts by it lowest first. */
  lemma ToggleNewTwice(s: SortSetting, key: SortKey)
    requires s.sortBy != key
    ensures Toggle(Toggle(s, key), key) == SortSetting(key, Asc)
  {
  }

  /** The table component: its sort state and the sorted copy it renders. */
  class StatsTable {
    var sortBy: SortKey
    var sortOrder: SortOrder

    constructor ()
      ensures SortSetting(sortBy, sortOrder) == Initial
    {
      sortBy := ScoreKey;
      sortOrder := Desc;
    }

    /** A click on the header of column `key`. */
    method ToggleSort(key: SortKey)
      modifies this
      ensures SortSetting(sortBy, sortOrder) == Toggle(old(SortSetting(sortBy, sortOrder)), key)
    {
      if sortBy == key {
        sortOrder := if sortOrder == Asc then Desc else Asc;
      } else {
        sortBy := key;
        sortOrder := Desc;
      }
    }

    /**
     * The rows to render: a new array holding the ideas sorted by the
     * current state. Neither `ideas` nor the state is changed.
     */
    method SortedIdeas(ideas: array<IdeaStat>) returns (sorted: array<IdeaStat>)
      ensures fresh(sorted)
      ensures sorted[..] == SortBy(ideas[..], sortBy, sortOrder)
      ensures multiset(sorted[..]) == multiset(ideas[..])
      ensures Ranked(sorted[..], sortBy, sortOrder)
    {
      var s := SortBy(ideas[..], sortBy, sortOrder);
      SortRanked(ideas[..], sortBy, sortOrder);
      sorted := new IdeaStat[|s|](i requires 0 <= i < |s| => s[i]);
      assert sorted[..] == s;
    }
  }
}
