/** Hostnames: ASCII lowercasing, host patterns, and what the most specific
    pattern of a host is. */
module Hosts {
  import opened Prelude

  function LowerChar(c: char): char {
    if 'A' <= c <= 'Z' then (c as int + 32) as char else c
  }

  function Lower(s: string): string {
    seq(|s|, i requires 0 <= i < |s| => LowerChar(s[i]))
  }

  const UPPER_LETTERS: string := "ABCDEFGHIJKLMNOPQRSTUVWXYZ"
  const LOWER_LETTERS: string := "abcdefghijklmnopqrstuvwxyz"

  /** Two characters are the same, or the same ASCII letter in the two cases. */
  ghost predicate SameLetter(c: char, d: char) {
    c == d || exists i :: 0 <= i < 26 && {c, d} == {UPPER_LETTERS[i], LOWER_LETTERS[i]}
  }

  lemma LetterCases(i: nat)
    requires i < 26
    ensures UPPER_LETTERS[i] as int == 'A' as int + i && LOWER_LETTERS[i] as int == 'a' as int + i
  {
  }

  lemma LowerCharExactly(c: char, d: char)
    ensures LowerChar(c) == LowerChar(d) <==> SameLetter(c, d)
    ensures LowerChar(c) !in UPPER_LETTERS
  {
    forall i | 0 <= i < 26
      ensures UPPER_LETTERS[i] as int == 'A' as int + i && LOWER_LETTERS[i] as int == 'a' as int + i
    {
      LetterCases(i);
    }
    if LowerChar(c) == LowerChar(d) && c != d {
      var i := LowerChar(c) as int - 'a' as int;
      assert {c, d} == {UPPER_LETTERS[i], LOWER_LETTERS[i]};
    }
  }

  /** Two names have the same lowercase form exactly if they differ at most in the
      case of ASCII letters, and a lowercase form has no upper-case letter. */
  lemma LowerExactly(s: string, t: string)
    ensures Lower(s) == Lower(t) <==> |s| == |t| && forall i :: 0 <= i < |s| ==> SameLetter(s[i], t[i])
    ensures forall i :: 0 <= i < |s| ==> Lower(s)[i] !in UPPER_LETTERS
  {
    forall i | 0 <= i < |s| ensures Lower(s)[i] !in UPPER_LETTERS {
      LowerCharExactly(s[i], s[i]);
    }
    if |s| == |t| {
      forall i | 0 <= i < |s| ensures Lower(s)[i] == Lower(t)[i] <==> SameLetter(s[i], t[i]) {
        LowerCharExactly(s[i], t[i]);
      }
      if Lower(s) == Lower(t) {
        assert forall i :: 0 <= i < |s| ==> Lower(s)[i] == Lower(t)[i];
      }
    } else {
      assert |Lower(s)| != |Lower(t)|;
    }
  }

  predicate IsLower(s: string) {
    Lower(s) == s
  }

  lemma LowerIdempotent(s: string)
    ensures IsLower(Lower(s))
  {
  }

  /** The position of the first '.', or |s|. */
  function FirstDot(s: string): (k: nat)
    ensures k <= |s|
    ensures '.' !in s[..k]
    ensures k < |s| ==> s[k] == '.'
  {
    if s == [] || s[0] == '.' then 0
    else
      var k := FirstDot(s[1..]) + 1;
      assert s[..k] == [s[0]] + s[1..][..k - 1];
      k
  }

  /** `host.split_once('.')`: the part after the first dot. */
  function Parent(host: string): Option<string> {
    var k := FirstDot(host);
    if k < |host| then Some(host[k + 1..]) else None
  }

  /** The entry keys of a host, most specific first. */
  function HostPatterns(host: string): seq<string> {
    match Parent(host)
    case Some(parent) => [host, "*." + parent, "*"]
    case None => [host, "*"]
  }

  /** The first pattern that is a key, as `find_map` over a map does. */
  function FirstKey(patterns: seq<string>, keys: set<string>): Option<string> {
    if patterns == [] then None
    else if patterns[0] in keys then Some(patterns[0])
    else FirstKey(patterns[1..], keys)
  }

  // What the documentation promises, without the list of candidates: a pattern
  // is a name, `*.name` for one more label, or `*`, and the most specific wins.

  ghost predicate OneLabelUnder(host: string, parent: string) {
    exists lbl :: '.' !in lbl && host == lbl + "." + parent
  }

  ghost predicate WildcardMatches(pattern: string, host: string) {
    exists parent :: pattern == "*." + parent && OneLabelUnder(host, parent)
  }

  ghost predicate Matches(pattern: string, host: string) {
    pattern == host || pattern == "*" || WildcardMatches(pattern, host)
  }

  /** `p` is at least as specific for `host` as `q`. */
  predicate AsSpecific(p: string, q: string, host: string) {
    p == host || (q != host && (p != "*" || q == "*"))
  }

  ghost predicate MostSpecific(keys: set<string>, host: string, p: string) {
    && p in keys
    && Matches(p, host)
    && forall q :: q in keys && Matches(q, host) ==> AsSpecific(p, q, host)
  }

  lemma SplitUnique(host: string, lbl: string, parent: string)
    requires '.' !in lbl && host == lbl + "." + parent
    ensures Parent(host) == Some(parent)
  {
    var k := FirstDot(host);
    assert host[|lbl|] == '.';
    assert forall i :: 0 <= i < |lbl| ==> host[i] == lbl[i];
    assert k == |lbl| by {
      assert forall i :: 0 <= i < k ==> host[..k][i] == host[i];
    }
    assert host[|lbl| + 1..] == parent;
  }

  lemma WildcardIsParent(pattern: string, host: string)
    ensures WildcardMatches(pattern, host)
            <==> Parent(host).Some? && pattern == "*." + Parent(host).value
  {
    var k := FirstDot(host);
    if k < |host| {
      assert host == host[..k] + "." + host[k + 1..];
      assert OneLabelUnder(host, host[k + 1..]);
    }
    forall parent | pattern == "*." + parent && OneLabelUnder(host, parent)
      ensures Parent(host) == Some(parent)
    {
      var lbl :| '.' !in lbl && host == lbl + "." + parent;
      SplitUnique(host, lbl, parent);
    }
  }

  /** The patterns of a host are exactly the patterns that match it. */
  lemma PatternsAreMatches(host: string, p: string)
    ensures p in HostPatterns(host) <==> Matches(p, host)
  {
    WildcardIsParent(p, host);
    var ps := HostPatterns(host);
    if p in ps {
    }
    assert host == ps[0] && "*" == ps[|ps| - 1];
    if Parent(host).Some? {
      assert "*." + Parent(host).value == ps[1];
    }
  }

  lemma PatternHasStar(p: string, host: string)
    requires Matches(p, host)
    ensures p == host || '*' in p
  {
    if p != host {
      assert p[0] == '*';
    }
  }

  lemma MostSpecificUnique(keys: set<string>, host: string, p: string, q: string)
    requires MostSpecific(keys, host, p) && MostSpecific(keys, host, q)
    ensures p == q
  {
    WildcardIsParent(p, host);
    WildcardIsParent(q, host);
  }

  /** Searching the patterns in order finds the most specific matching key. */
  lemma FirstKeyIsMostSpecific(host: string, keys: set<string>)
    ensures match FirstKey(HostPatterns(host), keys)
            case Some(p) => MostSpecific(keys, host, p)
            case None => forall q :: q in keys ==> !Matches(q, host)
  {
    forall q ensures q in HostPatterns(host) <==> Matches(q, host) {
      PatternsAreMatches(host, q);
    }
    var ps := HostPatterns(host);
    assert FirstKey(ps, keys) == if ps[0] in keys then Some(ps[0]) else FirstKey(ps[1..], keys);
    assert FirstKey(ps[1..], keys) == if ps[1] in keys then Some(ps[1]) else FirstKey(ps[1..][1..], keys);
    if Parent(host).Some? {
      assert ps[1..][1..] == ["*"];
    } else {
      assert ps[1..][1..] == [];
    }
  }
}
