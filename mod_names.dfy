/**
 * The test that picks the target layer: the contributing plugin's name
 * contains "Northern Roads", compared ordinally ignoring case. Case folding
 * is ASCII only.
 */
module ModNames {
  import opened Wrappers

  const NorthernRoads: string := "Northern Roads"

  function ToLowerAscii(c: char): char {
    if 'A' <= c <= 'Z' then (c as int + ('a' as int - 'A' as int)) as char else c
  }

  function FoldCase(s: string): string {
    seq(|s|, i requires 0 <= i < |s| => ToLowerAscii(s[i]))
  }

  /** `t` occurs in `s` starting at index `i`. */
  predicate OccursAt(s: string, t: string, i: nat) {
    i + |t| <= |s| && s[i..i + |t|] == t
  }

  lemma OccursAtTail(s: string, t: string, i: nat)
    requires s != []
    ensures OccursAt(s[1..], t, i) <==> OccursAt(s, t, i + 1)
  {
    if i + 1 + |t| <= |s| {
      assert s[1..][i..i + |t|] == s[i + 1..i + 1 + |t|];
    }
  }

  /** The index of the first occurrence of `t` in `s`, as an ordinal IndexOf. */
  function IndexOf(s: string, t: string): (r: Option<nat>)
    ensures r.Some? ==> OccursAt(s, t, r.value)
    ensures r.Some? ==> forall j: nat :: j < r.value ==> !OccursAt(s, t, j)
    ensures r.None? <==> forall j: nat :: !OccursAt(s, t, j)
    decreases |s|
  {
    if |s| < |t| then None
    else if s[..|t|] == t then Some(0)
    else
      assert !OccursAt(s, t, 0);
      assert forall j: nat :: 0 < j ==> (OccursAt(s, t, j) <==> OccursAt(s[1..], t, j - 1)) by {
        forall j: nat | 0 < j ensures OccursAt(s, t, j) <==> OccursAt(s[1..], t, j - 1) {
          OccursAtTail(s, t, j - 1);
        }
      }
      match IndexOf(s[1..], t)
      case None => None
      case Some(i) => Some(i + 1)
  }

  /** `s` contains `t`, ignoring (ASCII) case. */
  predicate ContainsIgnoreCase(s: string, t: string) {
    IndexOf(FoldCase(s), FoldCase(t)).Some?
  }

  /** The plugin name marks a Northern Roads layer. */
  predicate IsNorthernRoadsName(name: string) {
    ContainsIgnoreCase(name, NorthernRoads)
  }

  /** The search is case-insensitive: names equal up to case match alike. */
  lemma ContainsIgnoresCase(s: string, s': string, t: string)
    requires FoldCase(s) == FoldCase(s')
    ensures ContainsIgnoreCase(s, t) == ContainsIgnoreCase(s', t)
  {
  }

  /** Any name with the phrase, in any case, somewhere inside it matches. */
  lemma {:induction false} ContainsIgnoreCaseInfix(u: string, m: string, v: string, t: string)
    requires FoldCase(m) == FoldCase(t)
    ensures ContainsIgnoreCase(u + m + v, t)
  {
    var f := FoldCase(u + m + v);
    assert f[|u|..|u| + |m|] == FoldCase(m);
    assert OccursAt(f, FoldCase(t), |u|);
  }

  /** Conversely, a matching name is some text, a case variant of the phrase, and more text. */
  lemma ContainsIgnoreCaseSplit(s: string, t: string)
    requires ContainsIgnoreCase(s, t)
    ensures exists u, m, v :: s == u + m + v && FoldCase(m) == FoldCase(t)
  {
    var j := IndexOf(FoldCase(s), FoldCase(t)).value;
    var u, m, v := s[..j], s[j..j + |t|], s[j + |t|..];
    assert s == u + m + v;
    assert FoldCase(m) == FoldCase(s)[j..j + |t|];
  }

  /** A name shorter than the phrase never matches. */
  lemma {:induction false} ShortNameDoesNotMatch(name: string)
    requires |name| < |NorthernRoads|
    ensures !IsNorthernRoadsName(name)
  {
    assert forall j: nat :: !OccursAt(FoldCase(name), FoldCase(NorthernRoads), j);
  }

  /** Example: an upper-case name with a suffix matches. */
  lemma UpperCaseNameMatches()
    ensures IsNorthernRoadsName("NORTHERN ROADS - Patches")
  {
    assert FoldCase("NORTHERN ROADS") == FoldCase(NorthernRoads);
    ContainsIgnoreCaseInfix("", "NORTHERN ROADS", " - Patches", NorthernRoads);
    assert "" + "NORTHERN ROADS" + " - Patches" == "NORTHERN ROADS - Patches";
  }
}
