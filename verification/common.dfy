/** Definitions shared by the models of the four queue services. */
module Common {
  datatype Option<+T> = None | Some(value: T)

  // Row ids are UUIDs in the source; only their equality matters here.
  type Id = nat

  function Min(a: int, b: int): int {
    if a <= b then a else b
  }

  function Max(a: int, b: int): int {
    if a >= b then a else b
  }

  /** A set of numbers from a range of `n` has at most `n` members. */
  lemma {:induction false} RangeSize(s: set<int>, from: int, n: nat)
    requires forall x | x in s :: from <= x < from + n
    ensures |s| <= n
    decreases n
  {
    if n == 0 {
      assert forall x | x in s :: false;
    } else {
      var last := from + n - 1;
      RangeSize(s - {last}, from, n - 1);
      assert s == s - {last} || s == (s - {last}) + {last};
    }
  }

  lemma Pick<T>(s: set<T>) returns (x: T)
    requires s != {}
    ensures x in s
  {
    x :| x in s;
  }

  lemma {:induction false} Least(s: set<int>) returns (m: int)
    requires s != {}
    ensures m in s && forall x | x in s :: m <= x
    decreases s
  {
    var x := Pick(s);
    m := x;
    if s != {x} {
      var other := Least(s - {x});
      assert forall y | y in s :: y == x || y in s - {x};
      m := Min(x, other);
    }
  }

  lemma {:induction false} UpperBound(times: map<Id, int>, low: int) returns (t: int)
    ensures t >= low && forall id | id in times :: times[id] <= t
    decreases |times|
  {
    if times == map[] {
      t := low;
    } else {
      var id := Pick(times.Keys);
      var rest := times - {id};
      assert rest.Keys == times.Keys - {id};
      t := UpperBound(rest, low);
      t := Max(t, times[id]);
      assert forall j | j in times :: j == id || (j in rest && rest[j] == times[j]);
    }
  }

  lemma {:induction false} SubsetSize<T>(a: set<T>, b: set<T>)
    requires a <= b
    ensures |a| <= |b|
    decreases a
  {
    if a != {} {
      var x :| x in a;
      SubsetSize(a - {x}, b - {x});
    }
  }
}

/** The answer of `SELECT id ... WHERE due ORDER BY due_time LIMIT n`, the
    query all four services poll with. `due` holds the rows that satisfy the
    WHERE clause, keyed by id, with the column the result is ordered by. Rows
    with equal times may come in any order, so the answer is a relation. */
module Selection {
  import opened Common

  ghost predicate Oldest(due: map<Id, int>, limit: nat, batch: seq<Id>) {
    && |batch| == Min(limit, |due|)
    && (forall i | 0 <= i < |batch| :: batch[i] in due)
    && (forall i, j | 0 <= i < j < |batch| :: batch[i] != batch[j] && due[batch[i]] <= due[batch[j]])
    && (forall i, id | 0 <= i < |batch| && id in due && id !in batch :: due[batch[i]] <= due[id])
  }

  lemma {:induction false} Earliest(due: map<Id, int>) returns (first: Id)
    requires due != map[]
    ensures first in due && forall id | id in due :: due[first] <= due[id]
    decreases |due|
  {
    first :| first in due;
    var rest := due - {first};
    assert rest.Keys == due.Keys - {first};
    if rest != map[] {
      var other := Earliest(rest);
      assert forall id | id in due :: id == first || (id in rest && rest[id] == due[id]);
      if due[other] < due[first] { first := other; }
    } else {
      assert forall id | id in due :: id == first || id in rest.Keys;
    }
  }

  /** The query always has an answer. */
  lemma {:induction false} OldestExists(due: map<Id, int>, limit: nat) returns (batch: seq<Id>)
    ensures Oldest(due, limit, batch)
    decreases limit
  {
    if limit == 0 || due == map[] {
      batch := [];
    } else {
      var first := Earliest(due);
      var more := OldestExists(due - {first}, limit - 1);
      OldestCons(due, limit, first, more);
      batch := [first] + more;
    }
  }

  /** One due row is the whole answer. */
  lemma OnlyOne(due: map<Id, int>, limit: nat, id: Id)
    requires due.Keys == {id} && limit >= 1
    ensures Oldest(due, limit, [id])
  {
    assert |due| == |due.Keys| == 1;
  }

  lemma OldestCons(due: map<Id, int>, limit: nat, first: Id, more: seq<Id>)
    requires limit > 0 && first in due && forall id | id in due :: due[first] <= due[id]
    requires Oldest(due - {first}, limit - 1, more)
    ensures Oldest(due, limit, [first] + more)
  {
    var rest := due - {first};
    var batch := [first] + more;
    assert rest.Keys == due.Keys - {first};
    assert |rest| == |due| - 1;
    assert forall i | 0 < i < |batch| :: batch[i] == more[i - 1] && batch[i] in rest;
    forall i, id | 0 <= i < |batch| && id in due && id !in batch ensures due[batch[i]] <= due[id] {
      NotInTail(first, more, id);
      assert id in rest;
      if i > 0 { assert rest[more[i - 1]] <= rest[id]; }
    }
  }

  lemma NotInTail(first: Id, more: seq<Id>, id: Id)
    requires id !in [first] + more
    ensures id != first && id !in more
  {
    assert ([first] + more)[0] == first;
    assert forall i | 0 <= i < |more| :: ([first] + more)[i + 1] == more[i];
  }

  /** A batch that leaves a row out is smaller than the table. */
  lemma FewerThanAll(due: set<Id>, batch: seq<Id>, id: Id)
    requires (forall i | 0 <= i < |batch| :: batch[i] in due) && forall i, j | 0 <= i < j < |batch| :: batch[i] != batch[j]
    requires id in due && id !in batch
    ensures |batch| < |due|
  {
    var chosen := set i | 0 <= i < |batch| :: batch[i];
    BatchSize(batch);
    assert chosen <= due - {id};
    SubsetSize(chosen, due - {id});
  }

  /** If a due row is left out, the batch is full and every row in it is at
      least as old. */
  lemma LeftOutMeansFull(due: map<Id, int>, limit: nat, batch: seq<Id>, id: Id)
    requires Oldest(due, limit, batch)
    requires id in due && id !in batch
    ensures |batch| == limit
    ensures forall i | 0 <= i < |batch| :: due[batch[i]] <= due[id]
  {
    FewerThanAll(due.Keys, batch, id);
    assert |due| == |due.Keys|;
  }

  /** A sequence without repetition has as many members as places. */
  lemma {:induction false} BatchSize(batch: seq<Id>)
    requires forall i, j | 0 <= i < j < |batch| :: batch[i] != batch[j]
    ensures |set i | 0 <= i < |batch| :: batch[i]| == |batch|
  {
    if batch != [] {
      var n := |batch| - 1;
      var front := batch[..n];
      BatchSize(front);
      var s := set i | 0 <= i < |front| :: front[i];
      assert (set i | 0 <= i < |batch| :: batch[i]) == s + {batch[n]} by {
        forall x | x in s ensures x in (set i | 0 <= i < |batch| :: batch[i]) {
          var i :| 0 <= i < |front| && front[i] == x;
          assert batch[i] == x;
        }
        forall x | x in (set i | 0 <= i < |batch| :: batch[i]) ensures x in s + {batch[n]} {
          var i :| 0 <= i < |batch| && batch[i] == x;
          if i < n { assert front[i] == x; }
        }
      }
    }
  }
}

/** The answers a delivery got, one per send: true for a 2xx. */
module Answers {
  function FailedTimes(n: nat): seq<bool> {
    seq(n, _ => false)
  }

  ghost predicate AllFailed(answers: seq<bool>) {
    forall i | 0 <= i < |answers| :: !answers[i]
  }

  ghost predicate FailedButLast(answers: seq<bool>, last: bool) {
    answers != [] && answers[|answers| - 1] == last && AllFailed(answers[..|answers| - 1])
  }

  /** One more answer after failures only. */
  lemma OneMore(answers: seq<bool>, last: bool)
    requires AllFailed(answers)
    ensures FailedButLast(answers + [last], last)
    ensures !last ==> AllFailed(answers + [last])
  {
    assert (answers + [last])[..|answers|] == answers;
  }

  lemma AllTheSame(answers: seq<bool>)
    requires FailedButLast(answers, false)
    ensures AllFailed(answers)
  {
    assert answers == answers[..|answers| - 1] + [false];
  }
}
