/** The score store (src/services/scoreService.ts): a table of per-user
    result records kept under one storage key. The JSON text in local
    storage is replaced by the decoded table itself; the functions on
    `seq<UserScore>` describe what each operation does to the table, and the
    class `ScoreStore` holds the stored value and performs the operations. */
module ScoreService {
  import opened QuizTypes

  /** `findIndex` by user id: the position of the first record of `userId`, or -1. */
  function FindIndex(s: seq<UserScore>, userId: string): (i: int)
    ensures -1 <= i < |s|
    ensures i == -1 <==> forall j :: 0 <= j < |s| ==> s[j].userId != userId
    ensures 0 <= i ==> s[i].userId == userId && forall j :: 0 <= j < i ==> s[j].userId != userId
  {
    if s == [] then -1
    else if s[0].userId == userId then 0
    else
      var k := FindIndex(s[1..], userId);
      if k == -1 then -1 else k + 1
  }

  /** `i` is the position of the first record of `userId` in `s`. */
  predicate FirstRecordAt(s: seq<UserScore>, userId: string, i: int) {
    0 <= i < |s| && s[i].userId == userId && forall j :: 0 <= j < i ==> s[j].userId != userId
  }

  /** The results `getUserScores` reports: those of the first record of
      `userId`, or none when the user has no record. */
  function ResultsOf(s: seq<UserScore>, userId: string): (rs: seq<QuizResult>)
    ensures (forall j :: 0 <= j < |s| ==> s[j].userId != userId) ==> rs == []
    ensures forall i :: FirstRecordAt(s, userId, i) ==> rs == s[i].results
  {
    var i := FindIndex(s, userId);
    if i >= 0 then s[i].results else []
  }

  /** The table after `saveQuizResult(userId, result)`: the result is pushed
      onto the first record of the user, or a new record is pushed at the end. */
  function WithResult(s: seq<UserScore>, userId: string, result: QuizResult): (t: seq<UserScore>)
    ensures (forall j :: 0 <= j < |s| ==> s[j].userId != userId) ==>
              t == s + [UserScore(userId, [result])]
    ensures forall i :: FirstRecordAt(s, userId, i) ==>
              t == s[i := UserScore(userId, s[i].results + [result])]
  {
    var i := FindIndex(s, userId);
    if i >= 0 then s[i := s[i].(results := s[i].results + [result])]
    else s + [UserScore(userId, [result])]
  }

  /** The table after `clearUserScores(userId)`: `filter` keeping the records of other users. */
  function RemoveUser(s: seq<UserScore>, userId: string): (t: seq<UserScore>)
    ensures |t| <= |s|
    ensures forall x :: x in t <==> x in s && x.userId != userId
  {
    if s == [] then []
    else (if s[0].userId == userId then [] else [s[0]]) + RemoveUser(s[1..], userId)
  }

  /** At most one record per user. */
  predicate UniqueUsers(s: seq<UserScore>) {
    forall i, j :: 0 <= i < j < |s| ==> s[i].userId != s[j].userId
  }

  /** Round trip: after a save, the user's results are the old ones followed by `result`. */
  lemma SaveAppendsResult(s: seq<UserScore>, userId: string, result: QuizResult)
    ensures ResultsOf(WithResult(s, userId, result), userId) == ResultsOf(s, userId) + [result]
  {
    var i := FindIndex(s, userId);
    var t := WithResult(s, userId, result);
    if i >= 0 {
      assert FirstRecordAt(t, userId, i);
    } else {
      assert FirstRecordAt(t, userId, |s|);
    }
  }

  /** A save changes no other user's results. */
  lemma SaveKeepsOthers(s: seq<UserScore>, userId: string, result: QuizResult, other: string)
    requires other != userId
    ensures ResultsOf(WithResult(s, userId, result), other) == ResultsOf(s, other)
  {
    var k := FindIndex(s, other);
    var t := WithResult(s, userId, result);
    assert forall j :: 0 <= j < |s| ==> t[j].userId == s[j].userId;
    if k >= 0 {
      assert FirstRecordAt(t, other, k);
    } else {
      assert forall j :: 0 <= j < |t| ==> t[j].userId != other;
    }
  }

  /** A save keeps "at most one record per user", and adds a record exactly
      when the user had none. */
  lemma SaveKeepsUnique(s: seq<UserScore>, userId: string, result: QuizResult)
    requires UniqueUsers(s)
    ensures UniqueUsers(WithResult(s, userId, result))
    ensures |WithResult(s, userId, result)| == |s| + (if FindIndex(s, userId) == -1 then 1 else 0)
  {
    var t := WithResult(s, userId, result);
    assert forall j :: 0 <= j < |s| ==> t[j].userId == s[j].userId;
  }

  /** `filter` commutes with concatenation, so the kept records stay in their order. */
  lemma {:induction false} RemoveUserAppend(a: seq<UserScore>, b: seq<UserScore>, userId: string)
    ensures RemoveUser(a + b, userId) == RemoveUser(a, userId) + RemoveUser(b, userId)
  {
    if a != [] {
      assert (a + b)[1..] == a[1..] + b;
      RemoveUserAppend(a[1..], b, userId);
    } else {
      assert a + b == b;
    }
  }

  /** On a single record, the filter keeps it exactly when it belongs to another user. */
  lemma RemoveUserSingle(x: UserScore, userId: string)
    ensures RemoveUser([x], userId) == if x.userId == userId then [] else [x]
  {
    assert [x][1..] == [];
  }

  /** Clearing twice is clearing once. */
  lemma {:induction false} RemoveUserIdempotent(s: seq<UserScore>, userId: string)
    ensures RemoveUser(RemoveUser(s, userId), userId) == RemoveUser(s, userId)
  {
    if s != [] {
      var head := if s[0].userId == userId then [] else [s[0]];
      RemoveUserAppend(head, RemoveUser(s[1..], userId), userId);
      if head != [] {
        RemoveUserSingle(s[0], userId);
      }
      RemoveUserIdempotent(s[1..], userId);
    }
  }

  /** After a clear the user has no results. */
  lemma RemoveUserClears(s: seq<UserScore>, userId: string)
    ensures ResultsOf(RemoveUser(s, userId), userId) == []
  {
    var t := RemoveUser(s, userId);
    forall j | 0 <= j < |t| ensures t[j].userId != userId {
      assert t[j] in t;
    }
  }

  /** A clear changes no other user's results. */
  lemma {:induction false} RemoveUserKeepsOthers(s: seq<UserScore>, userId: string, other: string)
    requires other != userId
    ensures ResultsOf(RemoveUser(s, userId), other) == ResultsOf(s, other)
  {
    if s != [] {
      RemoveUserKeepsOthers(s[1..], userId, other);
      var rest := RemoveUser(s[1..], userId);
      if s[0].userId == userId {
        assert RemoveUser(s, userId) == rest;
        ResultsOfTail(s, other);
      } else {
        assert RemoveUser(s, userId) == [s[0]] + rest;
        ResultsOfTail(s, other);
        ResultsOfTail([s[0]] + rest, other);
        assert ([s[0]] + rest)[1..] == rest;
      }
    }
  }

  /** The lookup on a non-empty table: the head record if it matches, else the lookup on the tail. */
  lemma ResultsOfTail(s: seq<UserScore>, userId: string)
    requires s != []
    ensures ResultsOf(s, userId) == if s[0].userId == userId then s[0].results else ResultsOf(s[1..], userId)
  {
    if s[0].userId != userId {
      var k := FindIndex(s[1..], userId);
      if k >= 0 {
        assert FirstRecordAt(s, userId, k + 1);
      }
    } else {
      assert FirstRecordAt(s, userId, 0);
    }
  }

  /** The browser storage entry that holds the table. */
  class ScoreStore {
    /** The decoded value under the storage key; None when the key is absent
        or holds the empty string, both of which read as an empty table. */
    var stored: Option<seq<UserScore>>

    /** A browser whose storage has no entry yet. */
    constructor ()
      ensures stored == None && GetAllScores() == []
    {
      stored := None;
    }

    /** `getAllScores`: the stored table, or the empty table when nothing is stored. */
    function GetAllScores(): seq<UserScore>
      reads this
    {
      match stored
      case None => []
      case Some(s) => s
    }

    /** `getUserScores`. */
    function GetUserScores(userId: string): (rs: seq<QuizResult>)
      reads this
      ensures stored.None? ==> rs == []
      ensures (forall j :: 0 <= j < |GetAllScores()| ==> GetAllScores()[j].userId != userId) ==> rs == []
      ensures forall i :: FirstRecordAt(GetAllScores(), userId, i) ==> rs == GetAllScores()[i].results
    {
      ResultsOf(GetAllScores(), userId)
    }

    /** `saveQuizResult`: load the table, push the result onto the user's
        record (or push a new record), write the table back. */
    method SaveQuizResult(userId: string, result: QuizResult)
      modifies this
      ensures stored.Some?
      ensures GetAllScores() == WithResult(old(GetAllScores()), userId, result)
      ensures GetUserScores(userId) == old(GetUserScores(userId)) + [result]
      ensures forall other :: other != userId ==> GetUserScores(other) == old(GetUserScores(other))
      ensures UniqueUsers(old(GetAllScores())) ==> UniqueUsers(GetAllScores())
    {
      var allScores := GetAllScores();
      var userScoreIndex := FindIndex(allScores, userId);
      if userScoreIndex >= 0 {
        var record := allScores[userScoreIndex];
        allScores := allScores[userScoreIndex := record.(results := record.results + [result])];
      } else {
        allScores := allScores + [UserScore(userId, [result])];
      }
      stored := Some(allScores);
      SaveAppendsResult(old(GetAllScores()), userId, result);
      forall other | other != userId
        ensures GetUserScores(other) == old(GetUserScores(other))
      {
        SaveKeepsOthers(old(GetAllScores()), userId, result, other);
      }
      if UniqueUsers(old(GetAllScores())) {
        SaveKeepsUnique(old(GetAllScores()), userId, result);
      }
    }

    /** `clearUserScores`: write back the table without the user's records. */
    method ClearUserScores(userId: string)
      modifies this
      ensures stored.Some?
      ensures GetAllScores() == RemoveUser(old(GetAllScores()), userId)
      ensures GetUserScores(userId) == []
      ensures forall other :: other != userId ==> GetUserScores(other) == old(GetUserScores(other))
    {
      var allScores := GetAllScores();
      var filteredScores := RemoveUser(allScores, userId);
      stored := Some(filteredScores);
      RemoveUserClears(allScores, userId);
      forall other | other != userId
        ensures GetUserScores(other) == old(GetUserScores(other))
      {
        RemoveUserKeepsOthers(allScores, userId, other);
      }
    }
  }
}
