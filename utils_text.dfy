/** The string helpers of frontend/src/utils/index.ts: `capitalize`,
    `kebabToCamel` and `slugify`. Case mapping covers ASCII letters only. */
module UtilsText {
  import opened JsStrings

  /** `capitalize(str)` = `str.charAt(0).toUpperCase() + str.slice(1).toLowerCase()`. */
  function Capitalize(s: string): (r: string)
    ensures |r| == |s|
  {
    if s == [] then [] else [UpperChar(s[0])] + ToLower(s[1..])
  }

  /** The capitalised form: an upper-case first letter, lower-case letters after it. */
  predicate IsCapitalized(s: string)
  {
    (s != [] ==> !IsLower(s[0])) && forall i :: 1 <= i < |s| ==> !IsUpper(s[i])
  }

  /** `capitalize` keeps every character up to case, produces the
      capitalised form, and leaves a capitalised string as it is. */
  lemma CapitalizeShape(s: string)
    ensures IsCapitalized(Capitalize(s))
    ensures forall i :: 0 <= i < |s| ==> LowerChar(Capitalize(s)[i]) == LowerChar(s[i])
    ensures IsCapitalized(s) ==> Capitalize(s) == s
  {
  }

  /** Capitalising twice is capitalising once. */
  lemma CapitalizeIdempotent(s: string)
    ensures Capitalize(Capitalize(s)) == Capitalize(s)
  {
    CapitalizeShape(s);
    CapitalizeShape(Capitalize(s));
  }

  // ---------------------------------------------------------------------
  // kebabToCamel

  /** `kebabToCamel(str)` = `str.replace(/-([a-z])/g, l => l.toUpperCase())`:
      scanning left to right, a '-' followed by a lower-case letter becomes
      that letter in upper case. */
  function KebabToCamel(s: string): (r: string)
    ensures |r| <= |s|
    ensures r != [] ==> s != [] && (r[0] == s[0] || (s[0] == '-' && |s| >= 2 && r[0] == UpperChar(s[1])))
    decreases |s|
  {
    if s == [] then []
    else if s[0] == '-' && |s| >= 2 && IsLower(s[1]) then [UpperChar(s[1])] + KebabToCamel(s[2..])
    else [s[0]] + KebabToCamel(s[1..])
  }

  /** No '-' is followed by a lower-case letter: nothing left to replace. */
  predicate IsCamel(s: string)
  {
    forall i :: 0 <= i < |s| - 1 && s[i] == '-' ==> !IsLower(s[i + 1])
  }

  /** Every hyphen-letter pair is replaced, including one produced by an
      earlier '-' left in place (`"a--b"` becomes `"a-B"`). */
  lemma {:induction false} KebabToCamelIsCamel(s: string)
    ensures IsCamel(KebabToCamel(s))
    decreases |s|
  {
    if s == [] {
    } else if s[0] == '-' && |s| >= 2 && IsLower(s[1]) {
      KebabToCamelIsCamel(s[2..]);
      var rest := KebabToCamel(s[2..]);
      assert KebabToCamel(s) == [UpperChar(s[1])] + rest;
    } else {
      KebabToCamelIsCamel(s[1..]);
      var rest := KebabToCamel(s[1..]);
      var r := [s[0]] + rest;
      assert KebabToCamel(s) == r;
      if s[0] == '-' && rest != [] {
        assert !IsLower(rest[0]);
      }
      forall i | 0 <= i < |r| - 1 && r[i] == '-'
        ensures !IsLower(r[i + 1])
      {
        if i > 0 {
          assert r[i] == rest[i - 1] && r[i + 1] == rest[i];
        }
      }
    }
  }

  /** A string with nothing to replace is returned unchanged. */
  lemma {:induction false} KebabToCamelKeepsCamel(s: string)
    requires IsCamel(s)
    ensures KebabToCamel(s) == s
    decreases |s|
  {
    if s != [] {
      assert IsCamel(s[1..]) by {
        forall i | 0 <= i < |s[1..]| - 1 && s[1..][i] == '-'
          ensures !IsLower(s[1..][i + 1])
        {
          assert s[i + 1] == '-';
        }
      }
      KebabToCamelKeepsCamel(s[1..]);
    }
  }

  /** Converting twice is converting once. */
  lemma KebabToCamelIdempotent(s: string)
    ensures KebabToCamel(KebabToCamel(s)) == KebabToCamel(s)
  {
    KebabToCamelIsCamel(s);
    KebabToCamelKeepsCamel(KebabToCamel(s));
  }

  // ---------------------------------------------------------------------
  // slugify

  /** `.replace(/\s+/g, '-')`: every run of white space becomes one '-'. */
  function SpacesToHyphen(s: string): (r: string)
    ensures forall i :: 0 <= i < |r| ==> !IsSpace(r[i])
    ensures (forall i :: 0 <= i < |s| ==> !IsSpace(s[i])) ==> r == s
    ensures forall i :: 0 <= i < |r| ==> r[i] == '-' || r[i] in s
    decreases |s|
  {
    if s == [] then []
    else if IsSpace(s[0]) then
      var rest := TrimStart(s);
      assert |rest| < |s|;
      var r := "-" + SpacesToHyphen(rest);
      assert forall i :: 1 <= i < |r| ==> r[i] == '-' || r[i] in rest;
      assert forall c :: c in rest ==> c in s;
      r
    else
      [s[0]] + SpacesToHyphen(s[1..])
  }

  /** A character `slugify` keeps: `\w` or '-'. */
  predicate IsKept(c: char)
  {
    IsWordChar(c) || c == '-'
  }

  /** `.replace(/[^\w\-]+/g, '')`: every other character is dropped. */
  function KeepSlugChars(s: string): (r: string)
    ensures forall i :: 0 <= i < |r| ==> IsKept(r[i]) && r[i] in s
    ensures (forall i :: 0 <= i < |s| ==> IsKept(s[i])) ==> r == s
  {
    if s == [] then []
    else if IsKept(s[0]) then [s[0]] + KeepSlugChars(s[1..])
    else KeepSlugChars(s[1..])
  }

  /** The prefix run of '-'. */
  function DropHyphens(s: string): (r: string)
    ensures |r| <= |s| && r == s[|s| - |r|..]
    ensures r == [] || r[0] != '-'
    ensures s != [] && s[0] != '-' ==> r == s
  {
    if s != [] && s[0] == '-' then DropHyphens(s[1..]) else s
  }

  /** `.replace(/\-\-+/g, '-')`: every run of two or more '-' becomes one
      (a single '-' is kept as it is, so every run ends up as one '-'). */
  function CollapseHyphens(s: string): (r: string)
    ensures SingleHyphens(r)
    ensures forall i :: 0 <= i < |r| ==> r[i] in s
    ensures r != [] ==> s != [] && r[0] == s[0]
    decreases |s|
  {
    if s == [] then []
    else if s[0] == '-' then
      var rest := DropHyphens(s[1..]);
      var tail := CollapseHyphens(rest);
      ConsKeepsSingle('-', tail);
      assert forall c :: c in rest ==> c in s;
      "-" + tail
    else
      var tail := CollapseHyphens(s[1..]);
      ConsKeepsSingle(s[0], tail);
      assert forall c :: c in s[1..] ==> c in s;
      [s[0]] + tail
  }

  /** Putting a character before a string with single hyphens keeps them
      single unless both are '-'. */
  lemma ConsKeepsSingle(c: char, t: string)
    requires SingleHyphens(t) && (c == '-' && t != [] ==> t[0] != '-')
    ensures SingleHyphens([c] + t)
  {
    var r := [c] + t;
    forall i | 0 <= i < |r| - 1 ensures !(r[i] == '-' && r[i + 1] == '-') {
      if i > 0 { assert r[i] == t[i - 1] && r[i + 1] == t[i]; }
    }
  }

  /** `.replace(/-+$/, '')`: the suffix run of '-' is removed. */
  function DropTrailingHyphens(s: string): (r: string)
    ensures |r| <= |s| && r == s[..|r|]
    ensures r == [] || r[|r| - 1] != '-'
    ensures s != [] && s[|s| - 1] != '-' ==> r == s
  {
    if s != [] && s[|s| - 1] == '-' then DropTrailingHyphens(s[..|s| - 1]) else s
  }

  /** `slugify(text)`: lower case, trim, white space to '-', drop other
      characters, collapse '-' runs, strip leading and trailing '-'. The
      result is always a slug, and a slug is its own slug. */
  function Slugify(text: string): (r: string)
    ensures IsSlug(r)
    ensures IsSlug(text) ==> r == text
  {
    SlugStages(text);
    DropTrailingHyphens(DropHyphens(CollapseHyphens(KeepSlugChars(SpacesToHyphen(Trim(ToLower(text)))))))
  }

  /** A slug: lower-case letters, digits, '_' and single '-' between them. */
  predicate IsSlug(s: string)
  {
    SlugChars(s) && SingleHyphens(s) && (s != [] ==> s[0] != '-' && s[|s| - 1] != '-')
  }

  /** Only characters `slugify` keeps, none of them an upper-case letter. */
  predicate SlugChars(s: string)
  {
    forall i :: 0 <= i < |s| ==> IsKept(s[i]) && !IsUpper(s[i])
  }

  predicate SingleHyphens(s: string)
  {
    forall i :: 0 <= i < |s| - 1 ==> !(s[i] == '-' && s[i + 1] == '-')
  }

  /** No upper-case letter. */
  predicate NoUpper(s: string)
  {
    forall i :: 0 <= i < |s| ==> !IsUpper(s[i])
  }

  /** Trimming a string without upper-case letters leaves none. */
  lemma TrimKeepsNoUpper(s: string)
    requires NoUpper(s)
    ensures NoUpper(Trim(s))
  {
    var e := TrimEnd(s);
    assert NoUpper(e) by {
      forall i | 0 <= i < |e| ensures !IsUpper(e[i]) { assert e[i] == s[i]; }
    }
    var t := TrimStart(e);
    forall i | 0 <= i < |t| ensures !IsUpper(t[i]) { assert t[i] == e[|e| - |t| + i]; }
  }

  /** A character taken from a string without upper-case letters is not one. */
  lemma MemberNotUpper(c: char, s: string)
    requires NoUpper(s) && c in s
    ensures !IsUpper(c)
  {
    var k :| 0 <= k < |s| && s[k] == c;
  }

  /** After lower-casing, trimming, replacing white space and dropping
      the other characters, only slug characters are left. */
  lemma CleanedChars(text: string)
    ensures SlugChars(KeepSlugChars(SpacesToHyphen(Trim(ToLower(text)))))
  {
    var lower := ToLower(text);
    assert NoUpper(lower);
    var trimmed := Trim(lower);
    TrimKeepsNoUpper(lower);
    var spaced := SpacesToHyphen(trimmed);
    assert NoUpper(spaced) by {
      forall i | 0 <= i < |spaced| ensures !IsUpper(spaced[i]) {
        if spaced[i] != '-' { MemberNotUpper(spaced[i], trimmed); }
      }
    }
    var kept := KeepSlugChars(spaced);
    forall i | 0 <= i < |kept| ensures IsKept(kept[i]) && !IsUpper(kept[i]) {
      MemberNotUpper(kept[i], spaced);
    }
  }

  /** A slice of a string of slug characters with single hyphens is one too. */
  lemma SliceKeeps(s: string, i: nat, j: nat)
    requires i <= j <= |s| && SlugChars(s) && SingleHyphens(s)
    ensures SlugChars(s[i..j]) && SingleHyphens(s[i..j])
  {
    var t := s[i..j];
    forall k | 0 <= k < |t| - 1
      ensures !(t[k] == '-' && t[k + 1] == '-')
    {
      assert t[k] == s[i + k] && t[k + 1] == s[i + k + 1];
    }
  }

  /** Stripping the '-' at both ends keeps the characters and the single
      hyphens, and leaves no '-' at either end. */
  lemma StripEnds(s: string)
    requires SlugChars(s) && SingleHyphens(s)
    ensures IsSlug(DropTrailingHyphens(DropHyphens(s)))
  {
    var front := DropHyphens(s);
    SliceKeeps(s, |s| - |front|, |s|);
    var slug := DropTrailingHyphens(front);
    SliceKeeps(front, 0, |slug|);
    assert slug != [] ==> slug[0] == front[0];
  }

  /** A slug has no white space and nothing to drop or collapse. */
  lemma SlugStagesKeep(s: string)
    requires IsSlug(s)
    ensures ToLower(s) == s && Trim(s) == s && SpacesToHyphen(s) == s
    ensures KeepSlugChars(s) == s && CollapseHyphens(s) == s
    ensures DropHyphens(s) == s && DropTrailingHyphens(s) == s
  {
    assert forall i :: 0 <= i < |s| ==> !IsSpace(s[i]);
    assert ToLower(s) == s;
    assert TrimEnd(s) == s;
    CollapseKeepsSingles(s);
  }

  /** The stages of `slugify` end in a slug, and leave a slug as it is. */
  lemma SlugStages(text: string)
    ensures var out := DropTrailingHyphens(DropHyphens(CollapseHyphens(KeepSlugChars(SpacesToHyphen(Trim(ToLower(text)))))));
      IsSlug(out) && (IsSlug(text) ==> out == text)
  {
    CleanedChars(text);
    StripEnds(CollapseHyphens(KeepSlugChars(SpacesToHyphen(Trim(ToLower(text))))));
    if IsSlug(text) {
      SlugStagesKeep(text);
    }
  }

  /** Collapsing does nothing where no two '-' are adjacent. */
  lemma {:induction false} CollapseKeepsSingles(s: string)
    requires SingleHyphens(s)
    ensures CollapseHyphens(s) == s
    decreases |s|
  {
    if s != [] {
      if s[0] == '-' {
        if |s| >= 2 { assert s[1] != '-'; }
        assert DropHyphens(s[1..]) == s[1..];
      }
      CollapseKeepsSingles(s[1..]);
    }
  }

  /** Slugifying twice is slugifying once. */
  lemma SlugifyIdempotent(text: string)
    ensures Slugify(Slugify(text)) == Slugify(text)
  {
  }
}
