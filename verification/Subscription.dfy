/** The subscription message `id_openid_expiry` and its split into three fields. */
module Subscription {
  import opened Words

  /** `strchr`: the first underscore at or after `from`, if any. */
  method FindUnderscore(s: string, from: nat) returns (r: Option<nat>)
    requires from <= |s|
    ensures r.Some? ==> from <= r.value < |s| && s[r.value] == '_' && forall j :: from <= j < r.value ==> s[j] != '_'
    ensures r.None? ==> forall j :: from <= j < |s| ==> s[j] != '_'
  {
    for i := from to |s|
      invariant forall j :: from <= j < i ==> s[j] != '_'
    {
      if s[i] == '_' { return Some(i); }
    }
    return None;
  }

  function Join(id: string, openId: string, expiry: string): string {
    id + ("_" + (openId + ("_" + expiry)))
  }

  /** Positions of the two separators and the fields around them. */
  lemma JoinLayout(id: string, openId: string, expiry: string)
    ensures var s := Join(id, openId, expiry); var b := |id| + 1 + |openId|;
            && |s| == b + 1 + |expiry| && s[|id|] == '_' && s[b] == '_'
            && (forall j :: 0 <= j < |id| ==> s[j] == id[j])
            && (forall j :: |id| < j < b ==> s[j] == openId[j - |id| - 1])
            && s[..|id|] == id && s[|id| + 1..b] == openId && s[b + 1..] == expiry
  {
  }

  /** Two separators behind the first character, without which the lengths of the copies would be negative. */
  ghost predicate TwoSeparators(s: string) {
    exists a, b :: 1 <= a < b < |s| && s[a] == '_' && s[b] == '_'
  }

  /** The fields that the split finds: the search for the first separator starts at the second character. */
  predicate Splits(id: string, openId: string) {
    id != "" && '_' !in id[1..] && '_' !in openId
  }

  /** The three fields, joined again, are the message. */
  method SplitMessage(s: string) returns (id: string, openId: string, expiry: string)
    requires TwoSeparators(s)
    ensures s == Join(id, openId, expiry) && Splits(id, openId)
  {
    var a := new nat[4](_ => 0);
    a[3] := |s|;
    var next := 0;
    for i := 0 to 2
      invariant a.Length == 4 && a[0] == 0 && a[3] == |s| && (i == 0 ==> next == 0)
      invariant i >= 1 ==> IsNext(s, 1, a[1])
      invariant i == 1 ==> next == a[1]
      invariant i == 2 ==> IsNext(s, a[1] + 1, a[2])
    {
      var r := FindUnderscore(s, next + 1);
      if r.Some? { next := r.value; }
      a[i + 1] := next;
    }
    id, openId, expiry := s[a[0]..a[1]], s[a[1] + 1..a[2]], s[a[2] + 1..a[3]];
  }

  ghost predicate IsNext(s: string, from: nat, i: nat) {
    from <= i < |s| && s[i] == '_' && forall j :: from <= j < i ==> s[j] != '_'
  }

  /** The split undoes the join: a message has only one reading, so whatever was joined from a non-empty id and an
      open id without underscores is what the split returns. */
  lemma SplitUndoesJoin(id: string, openId: string, expiry: string, x: string, y: string, z: string)
    requires Join(id, openId, expiry) == Join(x, y, z) && Splits(id, openId) && Splits(x, y)
    ensures id == x && openId == y && expiry == z
  {
    JoinLayout(id, openId, expiry);
    JoinLayout(x, y, z);
    var s := Join(x, y, z);
    assert IsNext(s, 1, |id|) && IsNext(s, 1, |x|);
  }

  /** Every message joined from such fields has its two separators. */
  lemma JoinIsSplittable(x: string, y: string, z: string)
    requires x != ""
    ensures TwoSeparators(Join(x, y, z))
  {
    JoinLayout(x, y, z);
    assert Join(x, y, z)[|x| + 1 + |y|] == '_';
  }

  /** A joined message is split into the fields it was joined from. */
  method SplitJoined(x: string, y: string, z: string) returns (id: string, openId: string, expiry: string)
    requires x != "" && '_' !in x && '_' !in y
    ensures id == x && openId == y && expiry == z
  {
    JoinIsSplittable(x, y, z);
    id, openId, expiry := SplitMessage(Join(x, y, z));
    SplitUndoesJoin(id, openId, expiry, x, y, z);
  }
}
