/** Small vocabulary shared by the modules of the project. */
module Common {

  type Byte = x: int | 0 <= x < 256

  datatype Option<+T> = None | Some(value: T)

  lemma SliceOfSlice<T>(s: seq<T>, a: nat, b: nat, c: nat, d: nat)
    requires a <= b <= |s| && c <= d <= b - a
    ensures s[a..b][c..d] == s[a + c..a + d]
  {
    var t, u := s[a..b][c..d], s[a + c..a + d];
    forall i | 0 <= i < d - c ensures t[i] == u[i] {
      assert t[i] == s[a..b][c + i];
    }
  }

  /** s is obtained from t by deleting elements. */
  ghost predicate IsSubsequence<T(!new)>(s: seq<T>, t: seq<T>)
    decreases |t|
  {
    if s == [] then true
    else if t == [] then false
    else if s[0] == t[0] && IsSubsequence(s[1..], t[1..]) then true
    else IsSubsequence(s, t[1..])
  }

  lemma {:induction false} EmptyIsSubsequence<T(!new)>(t: seq<T>)
    ensures IsSubsequence([], t)
  {
  }

  lemma {:induction false} SubsequenceReflexive<T(!new)>(s: seq<T>)
    ensures IsSubsequence(s, s)
    decreases |s|
  {
    if s == [] {
    } else {
      SubsequenceReflexive(s[1..]);
    }
  }

  lemma {:induction false} SubsequencePrepend<T(!new)>(s: seq<T>, a: seq<T>, t: seq<T>)
    requires IsSubsequence(s, t)
    ensures IsSubsequence(s, a + t)
    decreases |a|
  {
    if a == [] {
      assert a + t == t;
    } else {
      SubsequencePrepend(s, a[1..], t);
      assert (a + t)[1..] == a[1..] + t;
    }
  }

  lemma {:induction false} SubsequenceConcat<T(!new)>(a: seq<T>, b: seq<T>, c: seq<T>, d: seq<T>)
    requires IsSubsequence(a, b) && IsSubsequence(c, d)
    ensures IsSubsequence(a + c, b + d)
    decreases |b|
  {
    if a == [] {
      assert a + c == c;
      SubsequencePrepend(c, b, d);
    } else {
      assert (a + c)[1..] == a[1..] + c;
      assert (b + d)[1..] == b[1..] + d;
      if a[0] == b[0] && IsSubsequence(a[1..], b[1..]) {
        SubsequenceConcat(a[1..], b[1..], c, d);
      } else {
        SubsequenceConcat(a, b[1..], c, d);
      }
    }
  }
}
