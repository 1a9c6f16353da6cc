/** What several components share about optional values, sets and sequences. */
module Collections {

  datatype Option<+T> = None | Some(value: T)

  ghost predicate NoDup<T>(s: seq<T>) {
    forall i, j :: 0 <= i < j < |s| ==> s[i] != s[j]
  }

  lemma NoDupAppend<T>(s: seq<T>, e: T)
    requires NoDup(s) && e !in s
    ensures NoDup(s + [e])
  {
    assert forall i :: 0 <= i < |s| ==> s[i] in s;
  }

  lemma NoDupAt<T>(s: seq<T>, k: nat)
    requires NoDup(s) && k < |s|
    ensures forall i :: 0 <= i < |s| && i != k ==> s[i] != s[k]
  {
  }

  lemma NoDupWithout<T>(s: seq<T>, k: nat)
    requires NoDup(s) && k < |s|
    ensures NoDup(s[..k] + s[k + 1..]) && s[k] !in s[..k] + s[k + 1..]
  {
    var t := s[..k] + s[k + 1..];
    assert forall i :: 0 <= i < |t| ==> t[i] == s[if i < k then i else i + 1];
  }

  lemma SubsetSize<T>(a: set<T>, b: set<T>)
    requires a <= b
    ensures |a| <= |b|
  {
    assert b == a + (b - a);
  }
}
