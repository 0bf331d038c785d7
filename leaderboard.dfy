/** The leaderboard: one entry per user who has recorded an attempt, ordered
    by average score, highest first, and among equal averages by number of
    quizzes, most first. Refreshing a user's entry removes the old one, appends
    a fresh one and re-sorts the list with a stable sort, which this module
    models as insertion sort. */
module Leaderboard {

  import opened QuizData

  /** The leaderboard row for a user's current record. */
  function EntryFor(name: string, u: UserRecord): (e: Entry)
    ensures e.username == name && e.achievements == |u.achievements|
    ensures e.totalScore == u.totalScore && e.averageScore == u.averageScore && e.totalQuizzes == u.totalQuizzes
  {
    Entry(name, u.totalScore, u.averageScore, u.totalQuizzes, |u.achievements|)
  }

  /** `a` goes strictly before `b`: the sort comparator of `updateLeaderboard`
      is negative for `(a, b)`. */
  predicate Above(a: Entry, b: Entry) {
    a.averageScore > b.averageScore
    || (a.averageScore == b.averageScore && a.totalQuizzes > b.totalQuizzes)
  }

  /** No entry is ranked above an entry that precedes it. */
  predicate Sorted(s: seq<Entry>) {
    forall i, j :: 0 <= i < j < |s| ==> !Above(s[j], s[i])
  }

  /** No user has two entries. */
  predicate UniqueNames(s: seq<Entry>) {
    forall i, j :: 0 <= i < j < |s| ==> s[i].username != s[j].username
  }

  predicate NameAbsent(s: seq<Entry>, name: string) {
    forall i :: 0 <= i < |s| ==> s[i].username != name
  }

  /** `x` sits at position `p` of `r`, between `s[..p]` and `s[p..]`, after
      every entry of `s` it does not rank above and before the first one it does. */
  predicate PlacedAt(r: seq<Entry>, s: seq<Entry>, x: Entry, p: int) {
    && 0 <= p <= |s| && r == s[..p] + [x] + s[p..]
    && (forall i :: 0 <= i < p ==> !Above(x, s[i]))
    && (p < |s| ==> Above(x, s[p]))
  }

  /** One step of the stable sort. */
  function Insert(s: seq<Entry>, x: Entry): (r: seq<Entry>)
    ensures |r| == |s| + 1
  {
    if s == [] then [x]
    else if Above(x, s[0]) then [x] + s
    else [s[0]] + Insert(s[1..], x)
  }

  /** Inserting places the entry after every entry it does not rank above
      (ties included) and before the first entry it ranks above. */
  lemma {:induction false} InsertPlaces(s: seq<Entry>, x: Entry)
    ensures exists p :: PlacedAt(Insert(s, x), s, x, p)
  {
    if s == [] {
      assert PlacedAt([x], s, x, 0);
    } else if Above(x, s[0]) {
      assert s[..0] + [x] + s[0..] == [x] + s;
      assert PlacedAt(Insert(s, x), s, x, 0);
    } else {
      InsertPlaces(s[1..], x);
      var q :| PlacedAt(Insert(s[1..], x), s[1..], x, q);
      assert Insert(s, x) == [s[0]] + Insert(s[1..], x);
      assert s[..q + 1] == [s[0]] + s[1..][..q];
      assert s[q + 1..] == s[1..][q..];
      assert PlacedAt(Insert(s, x), s, x, q + 1);
    }
  }

  /** Inserting adds exactly the new entry. */
  lemma {:induction false} InsertPermutes(s: seq<Entry>, x: Entry)
    ensures multiset(Insert(s, x)) == multiset(s) + multiset{x}
  {
    if s != [] && !Above(x, s[0]) {
      InsertPermutes(s[1..], x);
      assert s == [s[0]] + s[1..];
    }
  }

  /** Inserting into a sorted list keeps it sorted. */
  lemma {:induction false} InsertSorted(s: seq<Entry>, x: Entry)
    requires Sorted(s)
    ensures Sorted(Insert(s, x))
  {
    if s != [] && !Above(x, s[0]) {
      var rest := Insert(s[1..], x);
      InsertSorted(s[1..], x);
      InsertFrom(s[1..], x);
      var r := [s[0]] + rest;
      assert r == Insert(s, x);
      forall i, j | 0 <= i < j < |r| ensures !Above(r[j], r[i]) {
        if i == 0 {
          assert r[j] == rest[j - 1];
          assert r[j] in s[1..] || r[j] == x;
        } else {
          assert r[i] == rest[i - 1] && r[j] == rest[j - 1];
        }
      }
    }
  }

  /** Inserting into a list of unique users an entry of a user not yet listed
      keeps users unique. */
  lemma {:induction false} InsertUnique(s: seq<Entry>, x: Entry)
    requires UniqueNames(s) && NameAbsent(s, x.username)
    ensures UniqueNames(Insert(s, x))
  {
    if s != [] && !Above(x, s[0]) {
      var rest := Insert(s[1..], x);
      InsertUnique(s[1..], x);
      InsertFrom(s[1..], x);
      var r := [s[0]] + rest;
      assert r == Insert(s, x);
      forall i, j | 0 <= i < j < |r| ensures r[i].username != r[j].username {
        if i == 0 {
          assert r[j] == rest[j - 1];
          assert r[j] in s[1..] || r[j] == x;
        } else {
          assert r[i] == rest[i - 1] && r[j] == rest[j - 1];
        }
      }
    }
  }

  /** Every entry of an insertion comes from the list or is the new entry. */
  lemma InsertFrom(s: seq<Entry>, x: Entry)
    ensures forall y :: y in Insert(s, x) ==> y in s || y == x
  {
    InsertPermutes(s, x);
    forall y | y in Insert(s, x) ensures y in s || y == x {
      assert y in multiset(Insert(s, x));
    }
  }

  /** The stable sort of `updateLeaderboard`. */
  function SortEntries(s: seq<Entry>): (r: seq<Entry>)
    ensures |r| == |s|
  {
    if s == [] then [] else Insert(SortEntries(s[..|s| - 1]), s[|s| - 1])
  }

  /** Sorting gives a sorted permutation of its input, with users unique if
      they were unique before. */
  lemma {:induction false} SortCorrect(s: seq<Entry>)
    ensures multiset(SortEntries(s)) == multiset(s)
    ensures Sorted(SortEntries(s))
    ensures UniqueNames(s) ==> UniqueNames(SortEntries(s))
  {
    if s != [] {
      var front := s[..|s| - 1];
      var last := s[|s| - 1];
      var sortedFront := SortEntries(front);
      SortCorrect(front);
      assert s == front + [last];
      InsertPermutes(sortedFront, last);
      InsertSorted(sortedFront, last);
      if UniqueNames(s) {
        SortedFrontLacksLast(front, sortedFront, last);
        InsertUnique(sortedFront, last);
      }
    }
  }

  /** The entries of a permutation of `front` all belong to users other than
      that of `last`, when `front + [last]` has no user twice. */
  lemma SortedFrontLacksLast(front: seq<Entry>, sortedFront: seq<Entry>, last: Entry)
    requires UniqueNames(front + [last]) && multiset(sortedFront) == multiset(front)
    ensures NameAbsent(sortedFront, last.username)
  {
    var s := front + [last];
    forall i | 0 <= i < |sortedFront| ensures sortedFront[i].username != last.username {
      assert sortedFront[i] in multiset(front);
      var k :| 0 <= k < |front| && front[k] == sortedFront[i];
      assert s[k] == front[k] && s[|front|] == last;
    }
  }

  /** An entry that ranks above none of a list is appended at its end. */
  lemma {:induction false} InsertLast(s: seq<Entry>, x: Entry)
    requires forall i :: 0 <= i < |s| ==> !Above(x, s[i])
    ensures Insert(s, x) == s + [x]
  {
    if s != [] {
      InsertLast(s[1..], x);
      assert [s[0]] + (s[1..] + [x]) == s + [x];
    }
  }

  /** Sorting an already sorted list changes nothing: the sort is stable. */
  lemma {:induction false} SortSortedUnchanged(s: seq<Entry>)
    requires Sorted(s)
    ensures SortEntries(s) == s
  {
    if s != [] {
      var front := s[..|s| - 1];
      SortSortedUnchanged(front);
      InsertLast(front, s[|s| - 1]);
      assert front + [s[|s| - 1]] == s;
    }
  }

  /** The list without any entry of `name`, in its original order. */
  function WithoutUser(s: seq<Entry>, name: string): (r: seq<Entry>)
    ensures |r| <= |s|
  {
    if s == [] then []
    else if s[0].username == name then WithoutUser(s[1..], name)
    else [s[0]] + WithoutUser(s[1..], name)
  }

  /** Filtering keeps exactly the entries of other users. */
  lemma {:induction false} WithoutUserMembers(s: seq<Entry>, name: string)
    ensures forall y :: y in WithoutUser(s, name) <==> y in s && y.username != name
  {
    if s != [] {
      WithoutUserMembers(s[1..], name);
      assert forall y :: y in s <==> y == s[0] || y in s[1..] by {
        assert s == [s[0]] + s[1..];
      }
    }
  }

  /** Filtering a sorted list keeps it sorted. */
  lemma {:induction false} WithoutUserSorted(s: seq<Entry>, name: string)
    requires Sorted(s)
    ensures Sorted(WithoutUser(s, name))
  {
    if s != [] {
      WithoutUserSorted(s[1..], name);
      WithoutUserMembers(s[1..], name);
      if s[0].username != name {
        var rest := WithoutUser(s[1..], name);
        var r := [s[0]] + rest;
        forall i, j | 0 <= i < j < |r| ensures !Above(r[j], r[i]) {
          assert r[j] == rest[j - 1];
          if i == 0 {
            assert r[j] in s[1..];
          } else {
            assert r[i] == rest[i - 1];
          }
        }
      }
    }
  }

  /** Filtering a list of unique users keeps users unique. */
  lemma {:induction false} WithoutUserUnique(s: seq<Entry>, name: string)
    requires UniqueNames(s)
    ensures UniqueNames(WithoutUser(s, name))
  {
    if s != [] {
      WithoutUserUnique(s[1..], name);
      WithoutUserMembers(s[1..], name);
      if s[0].username != name {
        var rest := WithoutUser(s[1..], name);
        var r := [s[0]] + rest;
        forall i, j | 0 <= i < j < |r| ensures r[i].username != r[j].username {
          assert r[j] == rest[j - 1];
          if i == 0 {
            assert r[j] in s[1..];
          } else {
            assert r[i] == rest[i - 1];
          }
        }
      }
    }
  }

  /** `updateLeaderboard` for entry `e`. */
  function Refresh(board: seq<Entry>, e: Entry): (r: seq<Entry>)
    ensures |r| == |WithoutUser(board, e.username)| + 1
  {
    SortEntries(WithoutUser(board, e.username) + [e])
  }

  /** After a refresh the list is sorted, holds `e` exactly once and no other
      entry for its user, keeps every entry of every other user and nothing
      else, and has no user twice if it had none before. */
  lemma RefreshCorrect(board: seq<Entry>, e: Entry)
    ensures Sorted(Refresh(board, e))
    ensures forall y :: y in Refresh(board, e) <==> (y in board && y.username != e.username) || y == e
    ensures multiset(Refresh(board, e))[e] == 1
    ensures forall y :: y in Refresh(board, e) && y.username == e.username ==> y == e
    ensures UniqueNames(board) ==> UniqueNames(Refresh(board, e))
  {
    var rest := WithoutUser(board, e.username);
    WithoutUserMembers(board, e.username);
    var s := rest + [e];
    SortCorrect(s);
    var r := Refresh(board, e);
    assert e !in rest;
    assert multiset(s)[e] == multiset(rest)[e] + 1;
    assert forall y :: y in r <==> y in s by {
      forall y ensures y in r <==> y in s {
        assert y in r <==> y in multiset(r);
        assert y in s <==> y in multiset(s);
      }
    }
    if UniqueNames(board) {
      OthersThenUnique(board, e);
    }
  }

  /** The other users' entries followed by `e` name no user twice, if the
      board named none twice. */
  lemma OthersThenUnique(board: seq<Entry>, e: Entry)
    requires UniqueNames(board)
    ensures UniqueNames(WithoutUser(board, e.username) + [e])
  {
    var rest := WithoutUser(board, e.username);
    var s := rest + [e];
    WithoutUserMembers(board, e.username);
    WithoutUserUnique(board, e.username);
    forall i, j | 0 <= i < j < |s| ensures s[i].username != s[j].username {
      if j < |rest| {
        assert s[i] == rest[i] && s[j] == rest[j];
      } else {
        assert s[i] in rest;
      }
    }
  }

  /** On a sorted board the refresh inserts the fresh entry into the board
      without the user's old entry: after every entry it does not outrank
      (ties included) and before every entry it outranks. */
  lemma RefreshSorted(board: seq<Entry>, e: Entry)
    requires Sorted(board)
    ensures var rest := WithoutUser(board, e.username);
      exists p :: PlacedAt(Refresh(board, e), rest, e, p)
        && (forall i :: p <= i < |rest| ==> Above(e, rest[i]))
  {
    var rest := WithoutUser(board, e.username);
    WithoutUserSorted(board, e.username);
    RefreshIsInsert(board, e);
    InsertPlaces(rest, e);
    var p :| PlacedAt(Insert(rest, e), rest, e, p);
    assert forall i :: p <= i < |rest| ==> Above(e, rest[i]) by {
      forall i | p <= i < |rest| ensures Above(e, rest[i]) {
        assert i == p || !Above(rest[i], rest[p]);
      }
    }
  }

  /** On a sorted board the refresh is one insertion into the filtered board. */
  lemma RefreshIsInsert(board: seq<Entry>, e: Entry)
    requires Sorted(board)
    ensures Refresh(board, e) == Insert(WithoutUser(board, e.username), e)
  {
    var rest := WithoutUser(board, e.username);
    WithoutUserSorted(board, e.username);
    SortSortedUnchanged(rest);
    var s := rest + [e];
    assert s[..|s| - 1] == rest;
  }

  /** The part shown on screen: the first ten entries. On a sorted board no
      entry left out ranks above an entry shown. */
  function TopTen(board: seq<Entry>): (r: seq<Entry>)
    ensures |r| == if |board| < 10 then |board| else 10
    ensures r == board[..|r|]
    ensures Sorted(board) ==> forall i, j :: 0 <= i < |r| <= j < |board| ==> !Above(board[j], r[i])
  {
    if |board| < 10 then board else board[..10]
  }
}
