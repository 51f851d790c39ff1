/** callsignReference of src/problems/server/bank.server.ts: callsigns grouped with their anagrams, groups and
    members in order of first appearance. */
module CallsignGroups {

  predicate Lowercase(s: string) {
    forall i :: 0 <= i < |s| ==> 'a' <= s[i] <= 'z'
  }

  predicate Anagrams(a: string, b: string) {
    multiset(a) == multiset(b)
  }

  /** The callsigns with the same letters as one of them, in input order. */
  function Matching(callsigns: seq<string>, like: string): seq<string> {
    if callsigns == [] then []
    else
      var front, last := callsigns[..|callsigns| - 1], callsigns[|callsigns| - 1];
      Matching(front, like) + if Anagrams(last, like) then [last] else []
  }

  predicate Known(callsigns: seq<string>, like: string) {
    exists i :: 0 <= i < |callsigns| && Anagrams(callsigns[i], like)
  }

  /** The first callsign of each group, in input order. */
  function Firsts(callsigns: seq<string>): seq<string> {
    if callsigns == [] then []
    else
      var front, last := callsigns[..|callsigns| - 1], callsigns[|callsigns| - 1];
      Firsts(front) + if Known(front, last) then [] else [last]
  }

  /** A group holds its callsigns in input order: it is built up one input at a time, each in or out on its own. */
  lemma {:induction false} GroupsFilter(a: seq<string>, b: seq<string>, one: string, like: string)
    ensures Matching([], like) == []
    ensures Matching([one], like) == if multiset(one) == multiset(like) then [one] else []
    ensures Matching(a + b, like) == Matching(a, like) + Matching(b, like)
    decreases |b|
  {
    assert [one][..0] == [];
    if b == [] {
      assert a + b == a;
    } else {
      var front, last := b[..|b| - 1], b[|b| - 1];
      assert (a + b)[..|a + b| - 1] == a + front && (a + b)[|a + b| - 1] == last;
      GroupsFilter(a, front, one, like);
    }
  }

  /** The groups open in input order, each with the first of its letters. */
  lemma {:induction false} GroupsOpenInOrder(callsigns: seq<string>, k: nat)
    requires k < |callsigns|
    ensures Firsts(callsigns[..k + 1])
            == Firsts(callsigns[..k])
               + if exists j :: 0 <= j < k && multiset(callsigns[j]) == multiset(callsigns[k]) then []
                 else [callsigns[k]]
  {
    assert callsigns[..k + 1][..k] == callsigns[..k];
    var earlier := callsigns[..k];
    if j :| 0 <= j < k && multiset(callsigns[j]) == multiset(callsigns[k]) {
      assert Anagrams(earlier[j], callsigns[k]);
    }
  }

  // ----- letter counts

  type Key = seq<nat>

  function Letter(i: nat): char
    requires i < 26
  {
    'a' + i as char
  }

  predicate Counts(key: Key, s: string) {
    |key| == 26 && forall i :: 0 <= i < 26 ==> key[i] == multiset(s)[Letter(i)]
  }

  method CountLetters(s: string) returns (key: Key)
    requires Lowercase(s)
    ensures Counts(key, s)
  {
    var counts := new nat[26](_ => 0);
    for k := 0 to |s|
      invariant forall i :: 0 <= i < 26 ==> counts[i] == multiset(s[..k])[Letter(i)]
    {
      var index := s[k] as int - 'a' as int;
      assert s[..k + 1] == s[..k] + [s[k]];
      assert forall i :: 0 <= i < 26 ==> (Letter(i) == s[k] <==> i == index);
      counts[index] := counts[index] + 1;
    }
    assert s[..|s|] == s;
    key := counts[..];
  }

  /** Equal counts are exactly anagrams. */
  lemma KeysAreAnagrams(a: string, b: string, keyA: Key, keyB: Key)
    requires Lowercase(a) && Lowercase(b) && Counts(keyA, a) && Counts(keyB, b)
    ensures keyA == keyB <==> Anagrams(a, b)
  {
    if keyA == keyB {
      forall c
        ensures multiset(a)[c] == multiset(b)[c]
      {
        if 'a' <= c <= 'z' {
          var i: nat := c as int - 'a' as int;
          assert Letter(i) == c && keyA[i] == keyB[i];
        } else {
          assert c !in multiset(a) && c !in multiset(b);
        }
      }
    }
  }

  // ----- the table under construction

  ghost predicate Grouped(callsigns: seq<string>, keys: seq<Key>, groups: seq<seq<string>>) {
    var firsts := Firsts(callsigns);
    && |keys| == |groups| == |firsts|
    && forall i :: 0 <= i < |keys| ==> Counts(keys[i], firsts[i]) && groups[i] == Matching(callsigns, firsts[i])
  }

  lemma {:induction false} FirstsCover(callsigns: seq<string>)
    ensures forall i, j :: 0 <= i < j < |Firsts(callsigns)| ==> !Anagrams(Firsts(callsigns)[i], Firsts(callsigns)[j])
    ensures forall i :: 0 <= i < |Firsts(callsigns)| ==> Firsts(callsigns)[i] in callsigns
    ensures forall like ::
              Known(callsigns, like)
              <==> exists i :: 0 <= i < |Firsts(callsigns)| && Anagrams(Firsts(callsigns)[i], like)
    decreases |callsigns|
  {
    if callsigns != [] {
      var front, last := callsigns[..|callsigns| - 1], callsigns[|callsigns| - 1];
      FirstsCover(front);
      var before, after := Firsts(front), Firsts(callsigns);
      forall like
        ensures Known(callsigns, like) <==> exists i :: 0 <= i < |after| && Anagrams(after[i], like)
      {
        KnownOneMore(front, last, like);
        assert callsigns == front + [last];
        if Known(front, like) {
          var i :| 0 <= i < |before| && Anagrams(before[i], like);
          assert after[i] == before[i];
        } else if Anagrams(last, like) {
          assert !Known(front, last);
          assert after[|before|] == last;
        }
        forall i | 0 <= i < |after| && Anagrams(after[i], like)
          ensures Known(callsigns, like)
        {
          var k :| 0 <= k < |callsigns| && callsigns[k] == after[i];
        }
      }
    }
  }

  lemma KnownOneMore(front: seq<string>, last: string, like: string)
    ensures Known(front + [last], like) <==> Known(front, like) || Anagrams(last, like)
  {
    if Known(front, like) {
      var i :| 0 <= i < |front| && Anagrams(front[i], like);
      assert Anagrams((front + [last])[i], like);
    }
    if Anagrams(last, like) {
      assert (front + [last])[|front|] == last;
    }
  }

  lemma MatchingOneMore(front: seq<string>, last: string, like: string)
    ensures Matching(front + [last], like) == Matching(front, like) + if Anagrams(last, like) then [last] else []
  {
    assert (front + [last])[..|front|] == front;
  }

  lemma {:induction false} NoneMatching(callsigns: seq<string>, like: string)
    requires !Known(callsigns, like)
    ensures Matching(callsigns, like) == []
    decreases |callsigns|
  {
    if callsigns != [] {
      var front, last := callsigns[..|callsigns| - 1], callsigns[|callsigns| - 1];
      assert callsigns == front + [last];
      KnownOneMore(front, last, like);
      NoneMatching(front, like);
    }
  }

  lemma FirstsOneMore(front: seq<string>, last: string)
    ensures Firsts(front + [last]) == Firsts(front) + if Known(front, last) then [] else [last]
  {
    assert (front + [last])[..|front|] == front;
  }

  lemma GroupJoined(front: seq<string>, last: string, keys: seq<Key>, groups: seq<seq<string>>, k: nat)
    requires Grouped(front, keys, groups) && k < |keys| && Anagrams(Firsts(front)[k], last)
    ensures Grouped(front + [last], keys, groups[k := groups[k] + [last]])
  {
    var firsts := Firsts(front);
    FirstsCover(front);
    FirstsOneMore(front, last);
    assert Known(front, last);
    hide Firsts, Matching, Known;
    forall i | 0 <= i < |keys|
      ensures groups[k := groups[k] + [last]][i] == Matching(front + [last], firsts[i])
    {
      MatchingOneMore(front, last, firsts[i]);
    }
  }

  lemma StillUnknown(front: seq<string>, last: string)
    requires forall i :: 0 <= i < |Firsts(front)| ==> !Anagrams(Firsts(front)[i], last)
    ensures !Known(front, last)
  {
    FirstsCover(front);
  }

  lemma OpenedAt(front: seq<string>, last: string, like: string)
    requires !Known(front, last) && like in front
    ensures Matching(front + [last], like) == Matching(front, like)
  {
    MatchingOneMore(front, last, like);
  }

  lemma SameAnagrams(s: string)
    ensures Anagrams(s, s)
  {
  }

  lemma OthersKeepGroups(front: seq<string>, last: string)
    requires !Known(front, last)
    ensures forall i :: 0 <= i < |Firsts(front)| ==>
              Matching(front + [last], Firsts(front)[i]) == Matching(front, Firsts(front)[i])
  {
    FirstsCover(front);
    hide Firsts, Matching, Known, Anagrams;
    forall i | 0 <= i < |Firsts(front)|
      ensures Matching(front + [last], Firsts(front)[i]) == Matching(front, Firsts(front)[i])
    {
      OpenedAt(front, last, Firsts(front)[i]);
    }
  }

  lemma NewGroup(front: seq<string>, last: string)
    requires !Known(front, last)
    ensures Matching(front + [last], last) == [last] && Firsts(front + [last]) == Firsts(front) + [last]
  {
    SameAnagrams(last);
    NoneMatching(front, last);
    MatchingOneMore(front, last, last);
    FirstsOneMore(front, last);
  }

  lemma GroupOpened(front: seq<string>, last: string, keys: seq<Key>, groups: seq<seq<string>>, key: Key)
    requires Grouped(front, keys, groups) && Counts(key, last)
    requires forall i :: 0 <= i < |keys| ==> !Anagrams(Firsts(front)[i], last)
    ensures Grouped(front + [last], keys + [key], groups + [[last]])
  {
    hide Firsts, Matching, Known, Counts, Anagrams;
    StillUnknown(front, last);
    NewGroup(front, last);
    OthersKeepGroups(front, last);
  }

  /** Position of a key in the insertion-ordered map. */
  method FindKey(keys: seq<Key>, key: Key) returns (k: nat)
    ensures k <= |keys| && (k < |keys| ==> keys[k] == key) && (k == |keys| ==> key !in keys)
  {
    k := 0;
    while k < |keys| && keys[k] != key
      invariant k <= |keys| && key !in keys[..k]
    {
      k := k + 1;
    }
  }

  /** One group per letter multiset, opened in order of first appearance, each holding exactly its anagrams in order. */
  method CallsignReference(callsigns: seq<string>) returns (groups: seq<seq<string>>)
    requires forall i :: 0 <= i < |callsigns| ==> Lowercase(callsigns[i])
    ensures |groups| == |Firsts(callsigns)|
    ensures forall i :: 0 <= i < |groups| ==> groups[i] == Matching(callsigns, Firsts(callsigns)[i])
    ensures forall i, j :: 0 <= i < j < |groups| ==> !Anagrams(Firsts(callsigns)[i], Firsts(callsigns)[j])
    ensures forall s :: s in callsigns ==> exists i :: 0 <= i < |groups| && Anagrams(Firsts(callsigns)[i], s)
  {
    var keys: seq<Key> := [];
    groups := [];
    for read := 0 to |callsigns|
      invariant Grouped(callsigns[..read], keys, groups)
    {
      var callsign := callsigns[read];
      assert callsigns[..read + 1] == callsigns[..read] + [callsign];
      var key := CountLetters(callsign);
      var k := FindKey(keys, key);
      ghost var firsts := Firsts(callsigns[..read]);
      FirstsCover(callsigns[..read]);
      forall i | 0 <= i < |keys|
        ensures keys[i] == key <==> Anagrams(firsts[i], callsign)
      {
        assert firsts[i] in callsigns[..read];
        KeysAreAnagrams(firsts[i], callsign, keys[i], key);
      }
      if k < |keys| {
        GroupJoined(callsigns[..read], callsign, keys, groups, k);
        groups := groups[k := groups[k] + [callsign]];
      } else {
        GroupOpened(callsigns[..read], callsign, keys, groups, key);
        keys, groups := keys + [key], groups + [[callsign]];
      }
    }
    assert callsigns[..|callsigns|] == callsigns;
    FirstsCover(callsigns);
    forall s | s in callsigns
      ensures exists i :: 0 <= i < |groups| && Anagrams(Firsts(callsigns)[i], s)
    {
      var i :| 0 <= i < |callsigns| && callsigns[i] == s;
      assert Known(callsigns, s);
    }
  }
}
