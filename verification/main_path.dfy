/** `setupProductionPath` in main.js: outside development, macOS and Windows builds append
    the usual interpreter and tool directories that PATH does not mention yet.  The
    environment is an input and the new PATH is the result.
 */
module MainPath {
  import opened Wrappers
  import opened Text
  import Environment

  type Platform = Environment.Platform

  const DarwinCandidates: seq<string> := [
    "/usr/local/bin", "/opt/homebrew/bin", "/usr/bin", "/bin", "/usr/sbin", "/sbin",
    "/Library/Frameworks/Python.framework/Versions/3.12/bin",
    "/Library/Frameworks/Python.framework/Versions/3.11/bin",
    "/Library/Frameworks/Python.framework/Versions/3.10/bin",
    "/Library/Frameworks/Python.framework/Versions/3.9/bin",
    "/Library/Frameworks/Python.framework/Versions/3.8/bin",
    "/opt/homebrew/opt/python@3.11/bin", "/opt/homebrew/opt/python@3.10/bin", "/opt/homebrew/opt/python@3.9/bin",
    "/usr/local/opt/python@3.11/bin", "/usr/local/opt/python@3.10/bin", "/usr/local/opt/python@3.9/bin"]

  /** The Windows candidates; four of them sit under the user's profile. */
  function WindowsCandidates(username: string): seq<string> {
    var user := "C:\\Users\\" + username + "\\AppData\\Local\\Programs\\Python\\";
    ["C:\\Python311\\Scripts", "C:\\Python311", "C:\\Python310\\Scripts", "C:\\Python310",
     "C:\\Python39\\Scripts", "C:\\Python39",
     user + "Python311\\Scripts", user + "Python311", user + "Python310\\Scripts", user + "Python310"]
  }

  /** `commonPaths.filter(p => !currentPath.includes(p))`. */
  function ToAdd(current: string, candidates: seq<string>): (r: seq<string>)
    ensures forall x :: x in r <==> x in candidates && !Contains(current, x)
    ensures |r| <= |candidates|
    decreases |candidates|
  {
    if candidates == [] then []
    else (if !Contains(current, candidates[0]) then [candidates[0]] else []) + ToAdd(current, candidates[1..])
  }

  /** The platform's candidates and separator, when the platform is one that is adjusted. */
  function Candidates(p: Platform, username: string): Option<(seq<string>, string)> {
    match p
    case Darwin => Some((DarwinCandidates, ":"))
    case Win32 => Some((WindowsCandidates(username), ";"))
    case _ => None
  }

  /** The new PATH, or None when PATH is left alone: in development, on other platforms,
      and when every candidate is already mentioned. */
  function SetupPath(p: Platform, nodeEnv: Option<string>, path: Option<string>, username: string): (r: Option<string>)
    ensures nodeEnv == Some("development") || Candidates(p, username).None? ==> r.None?
    ensures r.Some? ==>
      var (cands, sep) := Candidates(p, username).value;
      var current := path.GetOr([]);
      && ToAdd(current, cands) != []
      && r.value == current + sep + Join(ToAdd(current, cands), sep)
    ensures nodeEnv != Some("development") && Candidates(p, username).Some? ==>
      (r.None? <==> ToAdd(path.GetOr([]), Candidates(p, username).value.0) == [])
  {
    if nodeEnv == Some("development") then None
    else
      match Candidates(p, username)
      case None => None
      case Some((cands, sep)) =>
        var current := path.GetOr([]);
        var add := ToAdd(current, cands);
        if add == [] then None else Some(current + sep + Join(add, sep))
  }

  /** Filtering distributes over concatenation: the added entries keep the candidates'
      order. */
  lemma {:induction false} ToAddAppend(current: string, a: seq<string>, b: seq<string>)
    ensures ToAdd(current, a + b) == ToAdd(current, a) + ToAdd(current, b)
    decreases |a|
  {
    if a == [] {
      assert a + b == b;
    } else {
      assert (a + b)[0] == a[0];
      assert (a + b)[1..] == a[1..] + b;
      ToAddAppend(current, a[1..], b);
    }
  }

  lemma ContainsAppend(s: string, t: string, pat: string)
    ensures Contains(s, pat) ==> Contains(s + t, pat)
    ensures Contains(t, pat) ==> Contains(s + t, pat)
  {
    if Contains(s, pat) {
      var k := IndexOf(s, pat).value;
      assert (s + t)[k..k + |pat|] == s[k..k + |pat|];
      assert OccursAt(s + t, pat, k);
    }
    if Contains(t, pat) {
      var k := IndexOf(t, pat).value;
      assert (s + t)[|s| + k..|s| + k + |pat|] == t[k..k + |pat|];
      assert OccursAt(s + t, pat, |s| + k);
    }
  }

  /** Every joined part appears in the joined text. */
  lemma {:induction false} JoinContains(parts: seq<string>, sep: string, i: nat)
    requires i < |parts|
    ensures Contains(Join(parts, sep), parts[i])
    decreases |parts|
  {
    if |parts| == 1 {
      SelfContains(parts[0]);
    } else if i == 0 {
      SelfContains(parts[0]);
      ContainsAppend(parts[0], sep + Join(parts[1..], sep), parts[0]);
      assert parts[0] + sep + Join(parts[1..], sep) == parts[0] + (sep + Join(parts[1..], sep));
    } else {
      JoinContains(parts[1..], sep, i - 1);
      ContainsAppend(parts[0] + sep, Join(parts[1..], sep), parts[i]);
    }
  }

  lemma SelfContains(s: string)
    ensures Contains(s, s)
  {
    assert OccursAt(s, s, 0);
  }

  /** Running the set-up again on the PATH it produced adds nothing. */
  lemma SetupIdempotent(p: Platform, nodeEnv: Option<string>, path: Option<string>, username: string)
    requires SetupPath(p, nodeEnv, path, username).Some?
    ensures SetupPath(p, nodeEnv, SetupPath(p, nodeEnv, path, username), username).None?
  {
    var cs := Candidates(p, username).value;
    var current := path.GetOr([]);
    var np := SetupPath(p, nodeEnv, path, username).value;
    assert np == Extended(current, cs.0, cs.1);
    ExtendedCoversAll(current, cs.0, cs.1);
  }

  /** The PATH with the missing candidates appended. */
  function Extended(current: string, cands: seq<string>, sep: string): string {
    current + sep + Join(ToAdd(current, cands), sep)
  }

  /** Every candidate is mentioned in the extended PATH. */
  lemma ExtendedCoversAll(current: string, cands: seq<string>, sep: string)
    ensures ToAdd(Extended(current, cands, sep), cands) == []
  {
    var add := ToAdd(current, cands);
    var tail := sep + Join(add, sep);
    var np := Extended(current, cands, sep);
    assert np == current + tail;
    forall x | x in cands ensures Contains(np, x) {
      if Contains(current, x) {
        ContainsAppend(current, tail, x);
      } else {
        assert x in add;
        var i :| 0 <= i < |add| && add[i] == x;
        JoinContains(add, sep, i);
        ContainsAppend(sep, Join(add, sep), x);
        ContainsAppend(current, tail, x);
      }
    }
    if ToAdd(np, cands) != [] {
      assert ToAdd(np, cands)[0] in ToAdd(np, cands);
    }
  }

  /** The set-up only appends: the PATH it started from is a prefix of the new one. */
  lemma SetupAppends(p: Platform, nodeEnv: Option<string>, path: Option<string>, username: string)
    requires SetupPath(p, nodeEnv, path, username).Some?
    ensures StartsWith(SetupPath(p, nodeEnv, path, username).value, path.GetOr([]))
  {
    var cs := Candidates(p, username).value;
    var current := path.GetOr([]);
    var np := SetupPath(p, nodeEnv, path, username).value;
    assert np == Extended(current, cs.0, cs.1);
    ExtendedPrefix(current, cs.0, cs.1);
  }

  lemma ExtendedPrefix(current: string, cands: seq<string>, sep: string)
    ensures StartsWith(Extended(current, cands, sep), current)
  {
    var tail := sep + Join(ToAdd(current, cands), sep);
    assert Extended(current, cands, sep) == current + tail;
    PrefixOfAppend(current, tail);
  }

  lemma PrefixOfAppend(a: string, b: string)
    ensures StartsWith(a + b, a)
  {
    assert (a + b)[..|a|] == a;
  }

  /** The check is by substring, not by PATH entry: `/bin` counts as present in a PATH
      holding only `/usr/local/bin`. */
  lemma SubstringCountsAsPresent()
    ensures Contains("/usr/local/bin", "/bin")
  {
    var s := "/usr/local/bin";
    assert s[10..14] == "/bin";
    assert OccursAt(s, "/bin", 10);
  }
}
