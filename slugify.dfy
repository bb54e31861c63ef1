/**
 * `slugify` of the server utilities: drop every character that is not a word
 * character, whitespace or `-`; strip surrounding whitespace; lower-case;
 * then replace each run of `-` and whitespace by a single `-`.
 */
module Slugs {
  import opened Text
  import opened Seqs

  /** `\w` restricted to ASCII: letters, digits and `_`. */
  predicate IsWordChar(c: char) {
    IsLowerAscii(c) || IsUpperAscii(c) || IsDigit(c) || c == '_'
  }

  /** `\s` restricted to ASCII, as Python's `str` methods see it (including the separators 0x1C to 0x1F). */
  predicate IsPySpace(c: char) {
    c == ' ' || ('\t' <= c <= '\r') || ('\U{1C}' <= c <= '\U{1F}')
  }

  /** The class `[\w\s-]` the first substitution keeps. */
  predicate Allowed(c: char) {
    IsWordChar(c) || IsPySpace(c) || c == '-'
  }

  /** The class `[-\s]` whose runs the second substitution collapses. */
  predicate IsSeparator(c: char) {
    c == '-' || IsPySpace(c)
  }

  /** `re.sub(r'[^\w\s-]', '', value)`: the allowed characters, in order. */
  function KeepAllowed(s: string): (r: string)
    ensures |r| <= |s|
  {
    if s == [] then []
    else if Allowed(s[0]) then [s[0]] + KeepAllowed(s[1..])
    else KeepAllowed(s[1..])
  }

  /** Every character of r occurs in s. */
  predicate DrawnFrom(r: string, s: string) {
    forall i :: 0 <= i < |r| ==> r[i] in s
  }

  predicate AllAllowed(r: string) {
    forall i :: 0 <= i < |r| ==> Allowed(r[i])
  }

  /** Only allowed characters of the input survive. */
  lemma {:induction false} KeepAllowedChars(s: string)
    ensures AllAllowed(KeepAllowed(s)) && DrawnFrom(KeepAllowed(s), s)
  {
    if s != [] {
      KeepAllowedChars(s[1..]);
      var rest := KeepAllowed(s[1..]);
      var r := KeepAllowed(s);
      assert r == if Allowed(s[0]) then [s[0]] + rest else rest;
      assert s == [s[0]] + s[1..];
      forall i | 0 <= i < |r| ensures Allowed(r[i]) && r[i] in s {
        if !Allowed(s[0]) {
          assert r[i] == rest[i];
        } else if i > 0 {
          assert r[i] == rest[i - 1];
        }
      }
    }
  }

  /** The first substitution is exactly a filter by the allowed class: every allowed character is kept, in order. */
  lemma {:induction false} KeepAllowedIsFilter(s: string)
    ensures KeepAllowed(s) == Filter(s, Allowed)
  {
    if s != [] {
      KeepAllowedIsFilter(s[1..]);
    }
  }

  /** A string made only of allowed characters is kept whole; one without any gives "". */
  lemma {:induction false} KeepAllowedExtremes(s: string)
    ensures (forall i :: 0 <= i < |s| ==> Allowed(s[i])) ==> KeepAllowed(s) == s
    ensures (forall i :: 0 <= i < |s| ==> !Allowed(s[i])) ==> KeepAllowed(s) == []
  {
    if s != [] {
      KeepAllowedExtremes(s[1..]);
      if forall i :: 0 <= i < |s| ==> Allowed(s[i]) {
        assert forall i :: 0 <= i < |s[1..]| ==> Allowed(s[1..][i]) by {
          forall i | 0 <= i < |s[1..]| ensures Allowed(s[1..][i]) { assert s[1..][i] == s[i + 1]; }
        }
        assert s == [s[0]] + s[1..];
      }
      if forall i :: 0 <= i < |s| ==> !Allowed(s[i]) {
        assert forall i :: 0 <= i < |s[1..]| ==> !Allowed(s[1..][i]) by {
          forall i | 0 <= i < |s[1..]| ensures !Allowed(s[1..][i]) { assert s[1..][i] == s[i + 1]; }
        }
      }
    }
  }

  function StripStart(s: string): (r: string)
    ensures |r| <= |s| && r == s[|s| - |r|..]
    ensures r == [] || !IsPySpace(r[0])
    ensures forall i :: 0 <= i < |s| - |r| ==> IsPySpace(s[i])
    ensures (s == [] || !IsPySpace(s[0])) ==> r == s
  {
    if s != [] && IsPySpace(s[0]) then StripStart(s[1..]) else s
  }

  function StripEnd(s: string): (r: string)
    ensures |r| <= |s| && r == s[..|r|]
    ensures r == [] || !IsPySpace(r[|r| - 1])
    ensures forall i :: |r| <= i < |s| ==> IsPySpace(s[i])
    ensures (s == [] || !IsPySpace(s[|s| - 1])) ==> r == s
  {
    if s != [] && IsPySpace(s[|s| - 1]) then StripEnd(s[..|s| - 1]) else s
  }

  /** `str.strip()`: surrounding whitespace removed. */
  function Strip(s: string): string {
    StripEnd(StripStart(s))
  }

  /** Stripping keeps only characters of the input. */
  lemma StripChars(s: string)
    ensures DrawnFrom(Strip(s), s)
  {
    var t := StripStart(s);
    var r := StripEnd(t);
    SliceDrawn(s, |s| - |t|, |s| - |t| + |r|);
    assert r == s[|s| - |t|..|s| - |t| + |r|];
  }

  lemma SliceDrawn(s: string, a: nat, b: nat)
    requires a <= b <= |s|
    ensures DrawnFrom(s[a..b], s)
  {
    forall i | 0 <= i < b - a ensures s[a..b][i] in s {
      assert s[a..b][i] == s[a + i];
    }
  }

  /**
   * `re.sub(r'[-\s]+', '-', value)`: every maximal run of separators becomes
   * one `-`. inRun says a run is already open, so its `-` is already written.
   */
  function Collapse(s: string, inRun: bool): (r: string)
    ensures inRun && r != [] ==> r[0] != '-'
  {
    if s == [] then []
    else if IsSeparator(s[0]) then
      (if inRun then Collapse(s[1..], true) else "-" + Collapse(s[1..], true))
    else [s[0]] + Collapse(s[1..], false)
  }

  /** No whitespace, and every other character is `-` or occurs in s. */
  predicate DashOrDrawnFrom(r: string, s: string) {
    forall i :: 0 <= i < |r| ==> !IsPySpace(r[i]) && (r[i] == '-' || r[i] in s)
  }

  /** What collapsing leaves is whitespace-free and made of `-` and characters of the input. */
  lemma {:induction false} CollapseChars(s: string, inRun: bool)
    ensures DashOrDrawnFrom(Collapse(s, inRun), s)
  {
    if s != [] {
      var next := IsSeparator(s[0]);
      CollapseChars(s[1..], next);
      var rest := Collapse(s[1..], next);
      var r := Collapse(s, inRun);
      assert s == [s[0]] + s[1..];
      forall i | 0 <= i < |r| ensures !IsPySpace(r[i]) && (r[i] == '-' || r[i] in s) {
        if next && inRun {
          assert r[i] == rest[i];
        } else if i > 0 {
          assert r[i] == rest[i - 1];
        }
      }
    }
  }

  /** Two `-` never follow each other. */
  predicate NoDoubleDash(s: string) {
    forall i :: 0 <= i < |s| - 1 ==> !(s[i] == '-' && s[i + 1] == '-')
  }

  lemma {:induction false} CollapseNoDoubleDash(s: string, inRun: bool)
    ensures NoDoubleDash(Collapse(s, inRun))
  {
    if s != [] {
      CollapseNoDoubleDash(s[1..], IsSeparator(s[0]));
      if IsSeparator(s[0]) && !inRun {
        var rest := Collapse(s[1..], true);
        var r := "-" + rest;
        forall i | 0 <= i < |r| - 1 ensures !(r[i] == '-' && r[i + 1] == '-') {
          if i > 0 {
            assert r[i] == rest[i - 1] && r[i + 1] == rest[i];
          }
        }
      } else if !IsSeparator(s[0]) {
        var rest := Collapse(s[1..], false);
        var r := [s[0]] + rest;
        forall i | 0 <= i < |r| - 1 ensures !(r[i] == '-' && r[i + 1] == '-') {
          if i > 0 {
            assert r[i] == rest[i - 1] && r[i + 1] == rest[i];
          }
        }
      }
    }
  }

  /** The characters of s that are neither `-` nor whitespace, in order: the words a slug is built from. */
  function NonSeparators(s: string): string {
    if s == [] then []
    else (if IsSeparator(s[0]) then [] else [s[0]]) + NonSeparators(s[1..])
  }

  lemma {:induction false} NonSeparatorsConcat(a: string, b: string)
    ensures NonSeparators(a + b) == NonSeparators(a) + NonSeparators(b)
  {
    if a == [] {
      assert a + b == b;
    } else {
      assert (a + b)[0] == a[0] && (a + b)[1..] == a[1..] + b;
      NonSeparatorsConcat(a[1..], b);
    }
  }

  /** Collapsing changes only separators: the other characters come out all, and in order. */
  lemma {:induction false} CollapseKeepsWords(s: string, inRun: bool)
    ensures NonSeparators(Collapse(s, inRun)) == NonSeparators(s)
  {
    if s != [] {
      var next := IsSeparator(s[0]);
      CollapseKeepsWords(s[1..], next);
      var rest := Collapse(s[1..], next);
      if next && !inRun {
        assert ("-" + rest)[1..] == rest;
      } else if !next {
        assert ([s[0]] + rest)[1..] == rest;
      }
    }
  }

  /** Inside a run, further separators write nothing. */
  lemma {:induction false} CollapseRunTail(r: string, t: string)
    requires forall i :: 0 <= i < |r| ==> IsSeparator(r[i])
    ensures Collapse(r + t, true) == Collapse(t, true)
  {
    if r == [] {
      assert r + t == t;
    } else {
      assert (r + t)[0] == r[0] && (r + t)[1..] == r[1..] + t;
      CollapseRunTail(r[1..], t);
    }
  }

  /**
   * A maximal run of separators (followed by the end or by a word character)
   * becomes exactly one `-`, or nothing when a run is already open.
   */
  lemma CollapseRun(r: string, t: string, inRun: bool)
    requires r != [] && forall i :: 0 <= i < |r| ==> IsSeparator(r[i])
    requires t == [] || !IsSeparator(t[0])
    ensures Collapse(r + t, inRun) == (if inRun then "" else "-") + Collapse(t, false)
  {
    assert (r + t)[0] == r[0];
    assert (r + t)[1..] == r[1..] + t;
    CollapseRunTail(r[1..], t);
  }

  /** A word (no separators) is copied as it is, and closes any open run. */
  lemma {:induction false} CollapseWord(w: string, t: string, inRun: bool)
    requires w != [] && forall i :: 0 <= i < |w| ==> !IsSeparator(w[i])
    ensures Collapse(w + t, inRun) == w + Collapse(t, false)
  {
    assert (w + t)[0] == w[0];
    assert (w + t)[1..] == w[1..] + t;
    if |w| > 1 {
      CollapseWord(w[1..], t, false);
    }
  }

  lemma {:induction false} StripStartKeepsWords(s: string)
    ensures NonSeparators(StripStart(s)) == NonSeparators(s)
  {
    if s != [] && IsPySpace(s[0]) {
      StripStartKeepsWords(s[1..]);
    }
  }

  lemma {:induction false} StripEndKeepsWords(s: string)
    ensures NonSeparators(StripEnd(s)) == NonSeparators(s)
  {
    if s != [] && IsPySpace(s[|s| - 1]) {
      var init := s[..|s| - 1];
      StripEndKeepsWords(init);
      assert s == init + [s[|s| - 1]];
      NonSeparatorsConcat(init, [s[|s| - 1]]);
    }
  }

  lemma {:induction false} LowerKeepsWords(s: string)
    ensures NonSeparators(Lower(s)) == Lower(NonSeparators(s))
  {
    if s != [] {
      LowerKeepsWords(s[1..]);
      assert Lower(s)[1..] == Lower(s[1..]);
      assert IsSeparator(LowerChar(s[0])) <==> IsSeparator(s[0]);
      if !IsSeparator(s[0]) {
        assert ([s[0]] + NonSeparators(s[1..]))[1..] == NonSeparators(s[1..]);
      }
    }
  }

  lemma {:induction false} KeptWords(s: string)
    ensures NonSeparators(KeepAllowed(s)) == Filter(s, IsWordChar)
  {
    if s != [] {
      var c, rest := s[0], s[1..];
      KeptWords(rest);
      assert s == [c] + rest;
      FilterCons(c, rest, IsWordChar);
      if Allowed(c) {
        NonSeparatorsConcat([c], KeepAllowed(rest));
      }
    }
  }

  /**
   * What a slug says: leaving its `-` aside, it is exactly the word
   * characters of the input, lower-cased, in their original order.
   */
  lemma SlugifyWords(value: string)
    ensures NonSeparators(Slugify(value)) == Lower(Filter(value, IsWordChar))
  {
    var kept := KeepAllowed(value);
    var lowered := Lower(Strip(kept));
    CollapseKeepsWords(lowered, false);
    LowerKeepsWords(Strip(kept));
    StripEndKeepsWords(StripStart(kept));
    StripStartKeepsWords(kept);
    KeptWords(value);
  }

  /** `slugify(value)`. */
  function Slugify(value: string): string {
    Collapse(Lower(Strip(KeepAllowed(value))), false)
  }

  /** Lower-case word characters and `-`, never two `-` in a row. */
  predicate IsSlug(r: string) {
    (forall i :: 0 <= i < |r| ==> IsWordChar(r[i]) || r[i] == '-')
    && (forall i :: 0 <= i < |r| ==> !IsUpperAscii(r[i]))
    && NoDoubleDash(r)
  }

  /** A slug holds only lower-case word characters and single dashes. */
  lemma SlugifyShape(value: string)
    ensures IsSlug(Slugify(value))
  {
    var kept := KeepAllowed(value);
    var stripped := Strip(kept);
    var lowered := Lower(stripped);
    var r := Collapse(lowered, false);
    KeepAllowedChars(value);
    StripChars(kept);
    CollapseChars(lowered, false);
    CollapseNoDoubleDash(lowered, false);
    forall i | 0 <= i < |r| ensures IsWordChar(r[i]) || r[i] == '-' {
      if r[i] != '-' {
        var j :| 0 <= j < |lowered| && lowered[j] == r[i];
        assert stripped[j] in kept;
      }
    }
    forall i | 0 <= i < |r| ensures !IsUpperAscii(r[i]) {
      if r[i] != '-' {
        assert r[i] in lowered;
        var j :| 0 <= j < |lowered| && lowered[j] == r[i];
      }
    }
  }

  /** Input made only of whitespace and disallowed characters (the empty string included) gives "". */
  lemma BlankSlug(value: string)
    requires forall i :: 0 <= i < |value| ==> !Allowed(value[i]) || IsPySpace(value[i])
    ensures Slugify(value) == ""
  {
    var kept := KeepAllowed(value);
    KeepAllowedChars(value);
    forall i | 0 <= i < |kept| ensures IsPySpace(kept[i]) {
      var j :| 0 <= j < |value| && value[j] == kept[i];
    }
    AllSpaceStrips(kept);
  }

  lemma {:induction false} AllSpaceStrips(s: string)
    requires forall i :: 0 <= i < |s| ==> IsPySpace(s[i])
    ensures StripStart(s) == []
  {
    if s != [] {
      AllSpaceStrips(s[1..]);
    }
  }

  lemma {:induction false} CollapseFixed(t: string, inRun: bool)
    requires forall i :: 0 <= i < |t| ==> !IsPySpace(t[i])
    requires NoDoubleDash(t)
    requires inRun ==> t == [] || t[0] != '-'
    ensures Collapse(t, inRun) == t
  {
    if t != [] {
      assert NoDoubleDash(t[1..]) by {
        forall i | 0 <= i < |t[1..]| - 1 ensures !(t[1..][i] == '-' && t[1..][i + 1] == '-') {
          assert t[1..][i] == t[i + 1] && t[1..][i + 1] == t[i + 2];
        }
      }
      if t[0] == '-' {
        CollapseFixed(t[1..], true);
      } else {
        CollapseFixed(t[1..], false);
      }
      assert t == [t[0]] + t[1..];
    }
  }

  /** Slugifying a slug changes nothing. */
  lemma SlugifyIdempotent(value: string)
    ensures Slugify(Slugify(value)) == Slugify(value)
  {
    SlugifyShape(value);
    SlugFixed(Slugify(value));
  }

  /** Each step of slugify leaves a slug as it is. */
  lemma SlugFixed(t: string)
    requires IsSlug(t)
    ensures Slugify(t) == t
  {
    CollapseFixed(t, false);
    SlugKept(t);
    SlugStripped(t);
    SlugLowered(t);
  }

  lemma SlugKept(t: string)
    requires IsSlug(t)
    ensures KeepAllowed(t) == t
  {
    assert forall i :: 0 <= i < |t| ==> Allowed(t[i]);
    KeepAllowedExtremes(t);
  }

  lemma SlugStripped(t: string)
    requires IsSlug(t)
    ensures Strip(t) == t
  {
    assert t == [] || (!IsPySpace(t[0]) && !IsPySpace(t[|t| - 1]));
  }

  lemma SlugLowered(t: string)
    requires IsSlug(t)
    ensures Lower(t) == t
  {
    assert forall i :: 0 <= i < |t| ==> LowerChar(t[i]) == t[i];
  }
}
