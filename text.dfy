/**
 * The three JavaScript string built-ins the preference round trip goes
 * through: `Array.prototype.join`, `String.prototype.split` and
 * `String.prototype.includes`, each for a one-character separator or a
 * plain substring.
 */
module Text {

  /** `parts.join(sep)`. */
  function Join(parts: seq<string>, sep: char): (r: string)
    ensures |parts| == 1 ==> r == parts[0]
  {
    if |parts| == 0 then ""
    else if |parts| == 1 then parts[0]
    else parts[0] + [sep] + Join(parts[1..], sep)
  }

  /** `s.split(sep)`: the pieces between separators; never an empty list. */
  function Split(s: string, sep: char): (r: seq<string>)
    ensures |r| >= 1
    ensures forall k :: 0 <= k < |r| ==> sep !in r[k]
  {
    if |s| == 0 then [""]
    else if s[0] == sep then [""] + Split(s[1..], sep)
    else
      var rest := Split(s[1..], sep);
      [[s[0]] + rest[0]] + rest[1..]
  }

  /** `t` occurs in `s` starting at position `i`. */
  predicate OccursAt(s: string, t: string, i: int)
  {
    0 <= i && i + |t| <= |s| && s[i..i + |t|] == t
  }

  /** `s.includes(t)`: a substring test, not a test of list membership. */
  predicate Includes(s: string, t: string)
  {
    exists i | 0 <= i <= |s| - |t| :: OccursAt(s, t, i)
  }

  /** A piece without separators is glued onto the first piece of what follows. */
  lemma {:induction false} SplitPrefix(a: string, tail: string, sep: char)
    requires sep !in a
    ensures Split(a + tail, sep) == [a + Split(tail, sep)[0]] + Split(tail, sep)[1..]
  {
    if a == [] {
      assert a + tail == tail;
      var r := Split(tail, sep);
      assert a + r[0] == r[0];
      assert [r[0]] + r[1..] == r;
    } else {
      var r := Split(tail, sep);
      assert (a + tail)[0] == a[0] && a[0] != sep;
      assert (a + tail)[1..] == a[1..] + tail;
      SplitPrefix(a[1..], tail, sep);
      var rest := Split(a[1..] + tail, sep);
      assert rest == [a[1..] + r[0]] + r[1..];
      assert Split(a + tail, sep) == [[a[0]] + rest[0]] + rest[1..];
      assert [a[0]] + (a[1..] + r[0]) == a + r[0];
    }
  }

  /** Splitting a join recovers the list, provided it is not empty and no piece holds the separator. */
  lemma {:induction false} SplitJoin(parts: seq<string>, sep: char)
    requires |parts| >= 1
    requires forall k :: 0 <= k < |parts| ==> sep !in parts[k]
    ensures Split(Join(parts, sep), sep) == parts
  {
    if |parts| == 1 {
      SplitPrefix(parts[0], "", sep);
      assert parts[0] + "" == parts[0];
    } else {
      var rest := parts[1..];
      SplitJoin(rest, sep);
      var tail := [sep] + Join(rest, sep);
      assert Join(parts, sep) == parts[0] + tail;
      SplitPrefix(parts[0], tail, sep);
      assert tail[1..] == Join(rest, sep);
      assert Split(tail, sep) == [""] + rest;
      assert parts[0] + "" == parts[0];
      assert [parts[0]] + rest == parts;
    }
  }

  /** The join of the empty list splits into one empty piece, not into the empty list. */
  lemma SplitJoinEmpty(sep: char)
    ensures Split(Join([], sep), sep) == [""]
  {
  }

  /** An occurrence inside the tail of a string is an occurrence in the whole string. */
  lemma OccursShift(p: string, s: string, t: string, i: int)
    requires OccursAt(s, t, i)
    ensures OccursAt(p + s, t, |p| + i)
  {
    assert (p + s)[|p| + i..|p| + i + |t|] == s[i..i + |t|];
  }

  /** A window of `|a|` characters that starts inside `a` covers the separator after `a`. */
  lemma SeparatorBlocks(a: string, j: string, t: string, i: int, sep: char)
    requires |t| == |a| && sep !in t
    ensures 0 < i <= |a| ==> !OccursAt(a + [sep] + j, t, i)
  {
    var s := a + [sep] + j;
    if 0 < i <= |a| && i + |t| <= |s| {
      assert s[|a|] == sep;
      assert s[i..i + |t|][|a| - i] == sep;
    }
  }

  /**
   * When every piece has exactly the length of `t` and neither the pieces nor
   * `t` hold the separator, the substring test on the join agrees with
   * membership in the list.
   */
  lemma {:induction false} IncludesJoin(parts: seq<string>, t: string, sep: char)
    requires |t| > 0 && sep !in t
    requires forall k :: 0 <= k < |parts| ==> |parts[k]| == |t| && sep !in parts[k]
    ensures Includes(Join(parts, sep), t) <==> t in parts
  {
    var s := Join(parts, sep);
    if |parts| == 0 {
      assert s == "";
    } else if |parts| == 1 {
      assert s == parts[0];
      if t in parts {
        assert OccursAt(s, t, 0);
      }
      if Includes(s, t) {
        var i :| 0 <= i <= |s| - |t| && OccursAt(s, t, i);
        assert i == 0 && s[0..|t|] == s;
        assert t == parts[0];
      }
    } else {
      var a, rest := parts[0], parts[1..];
      var j := Join(rest, sep);
      IncludesJoin(rest, t, sep);
      assert s == a + [sep] + j;
      if t in parts {
        if t == a {
          assert s[0..|t|] == a;
          assert OccursAt(s, t, 0);
        } else {
          assert t in rest;
          var i :| 0 <= i <= |j| - |t| && OccursAt(j, t, i);
          OccursShift(a + [sep], j, t, i);
        }
      }
      if Includes(s, t) {
        var i :| 0 <= i <= |s| - |t| && OccursAt(s, t, i);
        if i == 0 {
          assert s[0..|t|] == a;
          assert t == parts[0];
        } else {
          SeparatorBlocks(a, j, t, i, sep);
          var i' := i - |a| - 1;
          assert j[i'..i' + |t|] == s[i..i + |t|];
          assert OccursAt(j, t, i');
          assert Includes(j, t);
          var k :| 0 <= k < |rest| && rest[k] == t;
          assert parts[k + 1] == t;
        }
      }
    }
  }
}
