/** Texts joined by fixed separators, and when they can be taken apart again. */
module Separators {

  function Join(fields: seq<string>, seps: seq<string>): string
    requires |fields| == |seps| + 1
  {
    if seps == [] then fields[0] else fields[0] + seps[0] + Join(fields[1..], seps[1..])
  }

  lemma JoinCons(f: string, fields: seq<string>, sep: string, seps: seq<string>)
    requires |fields| == |seps| + 1
    ensures Join([f] + fields, [sep] + seps) == f + sep + Join(fields, seps)
  {
    assert ([f] + fields)[1..] == fields && ([sep] + seps)[1..] == seps;
  }

  ghost predicate OccursAt(s: string, t: string, i: nat) {
    i + |t| <= |s| && s[i..i + |t|] == t
  }

  ghost predicate Contains(s: string, t: string) {
    exists i: nat :: OccursAt(s, t, i)
  }

  /** No two occurrences of the separator overlap. */
  predicate Unbordered(sep: string) {
    forall k :: 0 < k < |sep| ==> sep[k..] != sep[..|sep| - k]
  }

  /** No field contains the separator in front of it or the one behind it. */
  ghost predicate Clear(fields: seq<string>, seps: seq<string>)
    requires |fields| == |seps| + 1
  {
    forall i: nat :: i < |seps| ==> !Contains(fields[i], seps[i]) && !Contains(fields[i + 1], seps[i])
  }

  lemma ClearTail(fields: seq<string>, seps: seq<string>)
    requires |fields| == |seps| + 1 && seps != [] && Clear(fields, seps)
    ensures Clear(fields[1..], seps[1..])
    ensures !Contains(fields[0], seps[0]) && !Contains(fields[1], seps[0])
  {
    forall i: nat | i < |seps[1..]|
      ensures !Contains(fields[1..][i], seps[1..][i]) && !Contains(fields[1..][i + 1], seps[1..][i])
    {
      assert !Contains(fields[i + 1], seps[i + 1]) && !Contains(fields[i + 2], seps[i + 1]);
    }
  }

  // ------------------------------------------------------------- clear fields

  lemma Overlapping(s: string, sep: string, i: nat, k: nat)
    requires OccursAt(s, sep, i) && OccursAt(s, sep, i + k) && k < |sep|
    ensures sep[k..] == sep[..|sep| - k]
  {
    assert sep[k..] == s[i..i + |sep|][k..] == s[i + k..i + k + |sep|][..|sep| - k];
  }

  /** Two occurrences in one text are at least a separator's length apart. */
  lemma Apart(s: string, sep: string, i: nat, j: nat)
    requires Unbordered(sep) && OccursAt(s, sep, i) && OccursAt(s, sep, j) && i < j
    ensures i + |sep| <= j
  {
    if j < i + |sep| {
      Overlapping(s, sep, i, j - i);
    }
  }

  lemma OccursWithin(s: string, t: string, i: nat, j: nat)
    requires OccursAt(s, t, i) && i + |t| <= j <= |s|
    ensures Contains(s[..j], t)
  {
    assert s[..j][i..i + |t|] == t;
    assert OccursAt(s[..j], t, i);
  }

  lemma HeadOfJoin(fields: seq<string>, seps: seq<string>)
    requires |fields| == |seps| + 1 && seps != []
    ensures var s, o := Join(fields, seps), |fields[0]|;
            && OccursAt(s, seps[0], o)
            && s[..o] == fields[0]
            && s[o + |seps[0]|..] == Join(fields[1..], seps[1..])
  {
  }

  /** Where the second field list starts over behind a separator of its own, that lies
      in a field of the first. */
  lemma {:induction false} LaterStart(x: string, sep: string, fs: seq<string>, gs: seq<string>, seps: seq<string>)
    requires |fs| == |gs| == |seps| + 1 && Join(fs, seps) == x + sep + Join(gs, seps)
    requires forall i :: 0 <= i < |seps| ==> Unbordered(seps[i])
    ensures Contains(fs[0], sep) || !Clear(fs, seps)
    decreases |seps|
  {
    var s := Join(fs, seps);
    assert OccursAt(s, sep, |x|);
    if seps != [] {
      var next := seps[0];
      var o, p := |fs[0]|, |x| + |sep| + |gs[0]|;
      HeadOfJoin(fs, seps);
      if p <= o {
        OccursWithin(s, sep, |x|, o);
      } else {
        var x' := LaterSplit(x + sep, s, fs[0], gs[0], next, Join(fs[1..], seps[1..]), Join(gs[1..], seps[1..]));
        LaterStart(x', next, fs[1..], gs[1..], seps[1..]);
        if Clear(fs, seps) {
          ClearTail(fs, seps);
        }
      }
    }
  }

  /** One text, cut at two different occurrences of a separator. */
  lemma LaterSplit(front: string, s: string, f: string, g: string, sep: string, f': string, g': string)
    returns (x: string)
    requires Unbordered(sep) && s == f + sep + f' == front + g + sep + g'
    requires |f| < |front| + |g|
    ensures f' == x + sep + g'
  {
    var o, p := |f|, |front| + |g|;
    assert OccursAt(s, sep, o) && OccursAt(s, sep, p);
    Apart(s, sep, o, p);
    x := s[o + |sep|..p];
    assert f' == s[o + |sep|..] && g' == s[p + |sep|..];
    assert s[o + |sep|..] == s[o + |sep|..p] + s[p..p + |sep|] + s[p + |sep|..];
  }

  lemma EarlierSplit(f: string, g: string, sep: string, f': string, g': string)
    requires Unbordered(sep) && f + sep + f' == g + sep + g' && |g| < |f|
    ensures Contains(f, sep)
  {
    var s := f + sep + f';
    assert OccursAt(s, sep, |f|) && OccursAt(s, sep, |g|);
    Apart(s, sep, |g|, |f|);
    OccursWithin(s, sep, |g|, |f|);
    assert s[..|f|] == f;
  }

  lemma SameSplit(f: string, g: string, sep: string, f': string, g': string)
    requires f + sep + f' == g + sep + g' && |g| == |f|
    ensures f == g && f' == g'
  {
    var s := f + sep + f';
    assert f == s[..|f|] && g == s[..|f|];
    assert f' == s[|f| + |sep|..] && g' == s[|f| + |sep|..];
  }

  /** Clear fields can be read off the joined text, against any other fields. */
  lemma {:induction false} ClearIsUnique(fs: seq<string>, gs: seq<string>, seps: seq<string>)
    requires |fs| == |gs| == |seps| + 1 && Clear(fs, seps) && Join(fs, seps) == Join(gs, seps)
    requires forall i :: 0 <= i < |seps| ==> Unbordered(seps[i])
    ensures fs == gs
    decreases |seps|
  {
    if seps != [] {
      var sep, f', g' := seps[0], Join(fs[1..], seps[1..]), Join(gs[1..], seps[1..]);
      ClearTail(fs, seps);
      if |gs[0]| < |fs[0]| {
        EarlierSplit(fs[0], gs[0], sep, f', g');
      } else if |fs[0]| < |gs[0]| {
        var x := LaterSplit("", Join(fs, seps), fs[0], gs[0], sep, f', g');
        LaterStart(x, sep, fs[1..], gs[1..], seps[1..]);
      } else {
        SameSplit(fs[0], gs[0], sep, f', g');
        ClearIsUnique(fs[1..], gs[1..], seps[1..]);
        assert fs == [fs[0]] + fs[1..] && gs == [gs[0]] + gs[1..];
      }
    }
  }

  // ------------------------------------------------------------- the others

  /** Moving the border between fields `i` and `i + 1` to another occurrence. */
  lemma {:induction false} MoveBorder(fields: seq<string>, seps: seq<string>, i: nat, left: string, right: string)
    requires |fields| == |seps| + 1 && i < |seps|
    requires left + seps[i] + right == fields[i] + seps[i] + fields[i + 1]
    ensures Join(fields[i := left][i + 1 := right], seps) == Join(fields, seps)
    decreases i
  {
    var moved := fields[i := left][i + 1 := right];
    if i == 0 {
      MoveFirst(fields, seps, left, right);
    } else {
      MoveBorder(fields[1..], seps[1..], i - 1, left, right);
      assert moved[1..] == fields[1..][i - 1 := left][i := right];
    }
  }

  lemma Regroup(left: string, sep: string, right: string, f: string, g: string, tail: string)
    requires left + sep + right == f + sep + g
    ensures left + sep + (right + tail) == f + sep + (g + tail)
  {
    assert left + sep + (right + tail) == (left + sep + right) + tail;
    assert f + sep + (g + tail) == (f + sep + g) + tail;
  }

  lemma ReplaceFirst(g: string, fields: seq<string>, seps: seq<string>) returns (tail: string)
    requires |fields| == |seps| + 1
    ensures Join(fields, seps) == fields[0] + tail && Join(fields[0 := g], seps) == g + tail
  {
    if seps == [] {
      tail := "";
    } else {
      tail := seps[0] + Join(fields[1..], seps[1..]);
      assert fields[0 := g][1..] == fields[1..];
    }
  }

  lemma {:induction false} MoveFirst(fields: seq<string>, seps: seq<string>, left: string, right: string)
    requires |fields| == |seps| + 1 && seps != []
    requires left + seps[0] + right == fields[0] + seps[0] + fields[1]
    ensures Join(fields[0 := left][1 := right], seps) == Join(fields, seps)
  {
    var tail := ReplaceFirst(right, fields[1..], seps[1..]);
    assert fields[0 := left][1 := right][1..] == fields[1..][0 := right];
    Regroup(left, seps[0], right, fields[0], fields[1], tail);
  }

  /** A field with a neighbouring separator in it can be cut there instead. */
  lemma {:induction false} UnclearIsAmbiguous(fs: seq<string>, seps: seq<string>) returns (gs: seq<string>)
    requires |fs| == |seps| + 1 && !Clear(fs, seps)
    requires forall i :: 0 <= i < |seps| ==> seps[i] != []
    ensures |gs| == |fs| && gs != fs && Join(gs, seps) == Join(fs, seps)
  {
    var i: nat :| i < |seps| && (Contains(fs[i], seps[i]) || Contains(fs[i + 1], seps[i]));
    var sep := seps[i];
    var left, right := Elsewhere(fs[i], sep, fs[i + 1]);
    MoveBorder(fs, seps, i, left, right);
    gs := fs[i := left][i + 1 := right];
    assert gs[i] == left;
  }

  lemma Elsewhere(f: string, sep: string, g: string) returns (left: string, right: string)
    requires sep != [] && (Contains(f, sep) || Contains(g, sep))
    ensures left != f && left + sep + right == f + sep + g
  {
    if Contains(f, sep) {
      var j: nat :| OccursAt(f, sep, j);
      left, right := f[..j], f[j + |sep|..] + sep + g;
      assert f == left + sep + f[j + |sep|..];
    } else {
      var j: nat :| OccursAt(g, sep, j);
      left, right := f + sep + g[..j], g[j + |sep|..];
      assert g == g[..j] + sep + right;
    }
    assert |left| != |f|;
  }
}
