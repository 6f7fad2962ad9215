/**
 * The address check `validateEmail` of routes/validateAndStoreEmail.mjs.
 *
 * The source tests the lower-cased text of the value against the expression
 *
 *     ^((A+(\.A+)*)|(".+"))@((A+\.)+A{2,})$        (flag i)
 *
 * where A is the character class [^<>()[\]\\.,;:\s@"].  The first half of
 * this module transcribes the expression part by part (ghost predicates whose
 * splits are existential, as the regular expression engine's backtracking
 * is); the second half is a checker that decides the same language by
 * scanning for the last '@' and the last '.', and the lemmas that the two
 * agree and what every accepted address looks like.
 */
module EmailFormat {
  import opened Base

  /** The characters ECMAScript calls LineTerminator; `.` never matches them. */
  predicate IsLineTerminator(c: char) {
    c == '\n' || c == '\r' || c == '\U{2028}' || c == '\U{2029}'
  }

  /** The characters `\s` matches: ECMAScript WhiteSpace and LineTerminator. */
  predicate IsWhiteSpace(c: char) {
    || c == '\t' || c == '\U{000B}' || c == '\U{000C}' || c == ' '
    || c == '\U{00A0}' || c == '\U{1680}' || ('\U{2000}' <= c <= '\U{200A}')
    || c == '\U{202F}' || c == '\U{205F}' || c == '\U{3000}' || c == '\U{FEFF}'
    || IsLineTerminator(c)
  }

  /** The class [^<>()[\]\\.,;:\s@"] used for every atom and label character. */
  predicate IsAtomChar(c: char) {
    c !in "<>()[]\\.,;:@\"" && !IsWhiteSpace(c)
  }

  // ---------------------------------------------------------------------
  // The expression, one predicate per part
  // ---------------------------------------------------------------------

  /** A+ */
  ghost predicate AtomRun(s: string) {
    |s| >= 1 && forall i :: 0 <= i < |s| ==> IsAtomChar(s[i])
  }

  /** A+(\.A+)* */
  ghost predicate DotAtoms(s: string)
    decreases |s|
  {
    || AtomRun(s)
    || exists k :: 0 < k < |s| && AtomRun(s[..k]) && s[k] == '.' && DotAtoms(s[k + 1..])
  }

  /** ".+" : a double quote, one or more characters other than line terminators, a double quote. */
  predicate QuotedLocal(s: string) {
    && |s| >= 3 && s[0] == '"' && s[|s| - 1] == '"'
    && forall i :: 1 <= i < |s| - 1 ==> !IsLineTerminator(s[i])
  }

  /** (A+(\.A+)*)|(".+") */
  ghost predicate LocalPart(s: string) {
    DotAtoms(s) || QuotedLocal(s)
  }

  /** (A+\.)+ */
  ghost predicate Labels(s: string)
    decreases |s|
  {
    exists k :: 0 < k < |s| && AtomRun(s[..k]) && s[k] == '.' && (k + 1 == |s| || Labels(s[k + 1..]))
  }

  /** A{2,} */
  ghost predicate TopLabel(s: string) {
    |s| >= 2 && AtomRun(s)
  }

  /** (A+\.)+A{2,} */
  ghost predicate Domain(s: string) {
    exists k :: 0 <= k <= |s| && Labels(s[..k]) && TopLabel(s[k..])
  }

  /** The whole anchored expression: some '@' splits the text into a local part and a domain. */
  ghost predicate Pattern(s: string) {
    exists i :: 0 <= i < |s| && s[i] == '@' && LocalPart(s[..i]) && Domain(s[i + 1..])
  }

  // ---------------------------------------------------------------------
  // Lower-casing (String(email).toLowerCase(), ASCII letters only)
  // ---------------------------------------------------------------------

  function LowerChar(c: char): char {
    if 'A' <= c <= 'Z' then (c as int + 32) as char else c
  }

  function Lower(s: string): string {
    seq(|s|, i requires 0 <= i < |s| => LowerChar(s[i]))
  }

  // ---------------------------------------------------------------------
  // The checker
  // ---------------------------------------------------------------------

  /** The position of the last occurrence of `c` in `s`, if any. */
  function LastIndex(s: string, c: char): (r: Option<nat>)
    ensures r.Some? ==> r.value < |s| && s[r.value] == c && forall j :: r.value < j < |s| ==> s[j] != c
    ensures r.None? ==> forall j :: 0 <= j < |s| ==> s[j] != c
  {
    if |s| == 0 then None
    else if s[|s| - 1] == c then Some(|s| - 1)
    else LastIndex(s[..|s| - 1], c)
  }

  /** The position of the first occurrence of `c` in `s`, or |s| when there is none. */
  function FirstIndex(s: string, c: char): (r: nat)
    ensures r <= |s| && (r < |s| ==> s[r] == c)
    ensures forall j :: 0 <= j < r ==> s[j] != c
  {
    if |s| == 0 then 0
    else if s[0] == c then 0
    else 1 + FirstIndex(s[1..], c)
  }

  predicate AllAtoms(s: string) {
    forall i :: 0 <= i < |s| ==> IsAtomChar(s[i])
  }

  /** Dot-separated atoms, stated by position: no leading, trailing or doubled dot. */
  predicate DotAtomsOk(s: string) {
    && |s| > 0 && s[0] != '.' && s[|s| - 1] != '.'
    && (forall i :: 0 <= i < |s| ==> IsAtomChar(s[i]) || s[i] == '.')
    && (forall i :: 0 < i < |s| && s[i] == '.' ==> s[i - 1] != '.')
  }

  /** A domain, stated through its last dot: dot-atoms, '.', then at least two atom characters. */
  predicate DomainOk(s: string) {
    match LastIndex(s, '.')
    case None => false
    case Some(d) => DotAtomsOk(s[..d]) && |s| - d - 1 >= 2 && AllAtoms(s[d + 1..])
  }

  /** A local part: dot-atoms or a quoted string. */
  predicate LocalOk(s: string) {
    DotAtomsOk(s) || QuotedLocal(s)
  }

  /** An address, stated through its last '@'. */
  predicate AddressOk(s: string) {
    match LastIndex(s, '@')
    case None => false
    case Some(a) => LocalOk(s[..a]) && DomainOk(s[a + 1..])
  }

  /** validateEmail: the expression tested against the lower-cased text. */
  predicate ValidateEmail(email: string) {
    AddressOk(Lower(email))
  }

  // ---------------------------------------------------------------------
  // The checker decides the expression's language
  // ---------------------------------------------------------------------

  lemma LastIndexIs(s: string, c: char, r: nat)
    requires r < |s| && s[r] == c && forall j :: r < j < |s| ==> s[j] != c
    ensures LastIndex(s, c) == Some(r)
  {
  }

  lemma {:induction false} DotAtomsSound(s: string)
    requires DotAtoms(s)
    ensures DotAtomsOk(s)
    decreases |s|
  {
    if !AtomRun(s) {
      var k :| 0 < k < |s| && AtomRun(s[..k]) && s[k] == '.' && DotAtoms(s[k + 1..]);
      var t := s[k + 1..];
      DotAtomsSound(t);
      assert s[0] == s[..k][0];
      assert s[|s| - 1] == t[|t| - 1];
      forall i | 0 <= i < |s|
        ensures IsAtomChar(s[i]) || s[i] == '.'
      {
        if i < k { assert s[i] == s[..k][i]; }
        else if i > k { assert s[i] == t[i - k - 1]; }
      }
      forall i | 0 < i < |s|
        ensures !(s[i] == '.' && s[i - 1] == '.')
      {
        if i - 1 < k { assert s[i - 1] == s[..k][i - 1]; }
        else if i - 1 == k { assert s[i] == t[0]; }
        else { assert s[i] == t[i - k - 1] && s[i - 1] == t[i - k - 2]; }
      }
    }
  }

  /** After the first dot of dot-atoms come dot-atoms again. */
  lemma DotAtomsOkAfterDot(s: string, k: nat)
    requires DotAtomsOk(s) && k < |s| && s[k] == '.'
    ensures 0 < k < |s| - 1 && DotAtomsOk(s[k + 1..])
  {
    var t := s[k + 1..];
    assert t[0] == s[k + 1];
    assert t[|t| - 1] == s[|s| - 1];
    forall i | 0 <= i < |t|
      ensures IsAtomChar(t[i]) || t[i] == '.'
    {
      assert t[i] == s[k + 1 + i];
    }
    forall i | 0 < i < |t| && t[i] == '.'
      ensures t[i - 1] != '.'
    {
      assert t[i] == s[k + 1 + i] && t[i - 1] == s[k + i];
    }
  }

  /** Before the first dot of dot-atoms comes one atom. */
  lemma DotAtomsOkBeforeDot(s: string, k: nat)
    requires DotAtomsOk(s) && k <= |s| && forall j :: 0 <= j < k ==> s[j] != '.'
    ensures k > 0 ==> AtomRun(s[..k])
  {
    assert forall j :: 0 <= j < k ==> s[..k][j] == s[j];
  }

  lemma {:induction false} DotAtomsComplete(s: string)
    requires DotAtomsOk(s)
    ensures DotAtoms(s)
    decreases |s|
  {
    var k := FirstIndex(s, '.');
    DotAtomsOkBeforeDot(s, k);
    if k < |s| {
      DotAtomsOkAfterDot(s, k);
      DotAtomsComplete(s[k + 1..]);
      DotAtomsCons(s, k);
    } else {
      assert s[..k] == s;
    }
  }

  lemma DotAtomsIff(s: string)
    ensures DotAtoms(s) <==> DotAtomsOk(s)
  {
    if DotAtoms(s) { DotAtomsSound(s); }
    if DotAtomsOk(s) { DotAtomsComplete(s); }
  }

  /** (A+\.)+ is A+(\.A+)* followed by one dot. */
  lemma {:induction false} LabelsSound(s: string)
    requires Labels(s)
    ensures |s| >= 2 && s[|s| - 1] == '.' && DotAtoms(s[..|s| - 1])
    decreases |s|
  {
    var k :| 0 < k < |s| && AtomRun(s[..k]) && s[k] == '.' && (k + 1 == |s| || Labels(s[k + 1..]));
    var p := s[..|s| - 1];
    if k + 1 == |s| {
      assert p == s[..k];
    } else {
      var t := s[k + 1..];
      LabelsSound(t);
      assert p[..k] == s[..k];
      assert p[k + 1..] == t[..|t| - 1];
      assert 0 < k < |p| && AtomRun(p[..k]) && p[k] == '.' && DotAtoms(p[k + 1..]);
    }
  }

  /** One label and its dot: A+\. */
  lemma LabelsOne(s: string)
    requires |s| >= 2 && s[|s| - 1] == '.' && AtomRun(s[..|s| - 1])
    ensures Labels(s)
  {
    var k := |s| - 1;
    assert 0 < k < |s| && AtomRun(s[..k]) && s[k] == '.' && k + 1 == |s|;
  }

  /** A label and its dot in front of more labels: A+\.(A+\.)+ */
  lemma LabelsCons(s: string, j: nat)
    requires 0 < j < |s| && AtomRun(s[..j]) && s[j] == '.' && Labels(s[j + 1..])
    ensures Labels(s)
  {
  }

  /** An atom, a dot and dot-atoms are dot-atoms: A+\.A+(\.A+)* */
  lemma DotAtomsCons(s: string, k: nat)
    requires 0 < k < |s| && AtomRun(s[..k]) && s[k] == '.' && DotAtoms(s[k + 1..])
    ensures DotAtoms(s)
  {
  }

  lemma DomainIntro(s: string, k: nat)
    requires k <= |s| && Labels(s[..k]) && TopLabel(s[k..])
    ensures Domain(s)
  {
  }

  lemma PatternIntro(s: string, i: nat)
    requires i < |s| && s[i] == '@' && LocalPart(s[..i]) && Domain(s[i + 1..])
    ensures Pattern(s)
  {
  }

  lemma {:induction false} LabelsComplete(s: string)
    requires |s| >= 2 && s[|s| - 1] == '.' && DotAtoms(s[..|s| - 1])
    ensures Labels(s)
    decreases |s|
  {
    var p := s[..|s| - 1];
    if AtomRun(p) {
      LabelsOne(s);
    } else {
      var j :| 0 < j < |p| && AtomRun(p[..j]) && p[j] == '.' && DotAtoms(p[j + 1..]);
      LabelsTail(s, j);
      LabelsComplete(s[j + 1..]);
      LabelsCons(s, j);
    }
  }

  /** Splitting A+(\.A+)*\. at a dot of its dot-atoms leaves a label in front and the same shape behind. */
  lemma LabelsTail(s: string, j: nat)
    requires |s| >= 2 && s[|s| - 1] == '.'
    requires 0 < j < |s| - 1 && AtomRun(s[..|s| - 1][..j]) && s[j] == '.' && DotAtoms(s[..|s| - 1][j + 1..])
    ensures AtomRun(s[..j])
    ensures var t := s[j + 1..]; |t| >= 2 && t[|t| - 1] == '.' && DotAtoms(t[..|t| - 1])
  {
    var p := s[..|s| - 1];
    var t := s[j + 1..];
    assert t[..|t| - 1] == p[j + 1..];
    assert s[..j] == p[..j];
  }

  lemma DomainSound(s: string)
    requires Domain(s)
    ensures DomainOk(s)
  {
    var k :| 0 <= k <= |s| && Labels(s[..k]) && TopLabel(s[k..]);
    var q := s[..k];
    LabelsSound(q);
    DotAtomsSound(q[..k - 1]);
    assert s[k - 1] == q[k - 1];
    assert s[..k - 1] == q[..k - 1];
    assert s[k..] == s[k - 1 + 1..];
    DomainSoundAt(s, k - 1);
  }

  /** Dot-atoms, a dot and two or more atom characters make a domain the checker accepts. */
  lemma DomainSoundAt(s: string, d: nat)
    requires d < |s| && s[d] == '.' && DotAtomsOk(s[..d]) && |s| - d - 1 >= 2 && AllAtoms(s[d + 1..])
    ensures DomainOk(s)
  {
    forall j | d < j < |s|
      ensures s[j] != '.'
    {
      assert s[j] == s[d + 1..][j - d - 1];
    }
    LastIndexIs(s, '.', d);
  }

  lemma DomainComplete(s: string)
    requires DomainOk(s)
    ensures Domain(s)
  {
    var d := LastIndex(s, '.').value;
    var k := d + 1;
    var q := s[..k];
    assert q[..|q| - 1] == s[..d];
    DotAtomsComplete(s[..d]);
    LabelsComplete(q);
    assert TopLabel(s[k..]);
    DomainIntro(s, k);
  }

  /** Every character of a domain is an atom character or a dot; in particular none is '@'. */
  lemma DomainChars(s: string)
    requires DomainOk(s)
    ensures forall j :: 0 <= j < |s| ==> IsAtomChar(s[j]) || s[j] == '.'
  {
    var d := LastIndex(s, '.').value;
    forall j | 0 <= j < |s|
      ensures IsAtomChar(s[j]) || s[j] == '.'
    {
      if j < d { assert s[j] == s[..d][j]; }
      else if j > d { assert s[j] == s[d + 1..][j - d - 1]; }
    }
  }

  lemma LocalPartComplete(s: string)
    requires LocalOk(s)
    ensures LocalPart(s)
  {
    DotAtomsIff(s);
  }

  lemma LocalPartSound(s: string)
    requires LocalPart(s)
    ensures LocalOk(s)
  {
    DotAtomsIff(s);
  }

  /** An '@' followed by a domain is the last '@' of the text. */
  lemma AtBeforeDomainIsLast(s: string, i: nat)
    requires i < |s| && s[i] == '@' && DomainOk(s[i + 1..])
    ensures LastIndex(s, '@') == Some(i)
  {
    var dom := s[i + 1..];
    DomainChars(dom);
    forall j | i < j < |s|
      ensures s[j] != '@'
    {
      assert s[j] == dom[j - i - 1];
    }
    LastIndexIs(s, '@', i);
  }

  lemma PatternSound(s: string)
    requires Pattern(s)
    ensures AddressOk(s)
  {
    var i :| 0 <= i < |s| && s[i] == '@' && LocalPart(s[..i]) && Domain(s[i + 1..]);
    LocalPartSound(s[..i]);
    DomainSound(s[i + 1..]);
    PatternSoundAt(s, i);
  }

  lemma PatternSoundAt(s: string, i: nat)
    requires i < |s| && s[i] == '@' && LocalOk(s[..i]) && DomainOk(s[i + 1..])
    ensures AddressOk(s)
  {
    AtBeforeDomainIsLast(s, i);
  }

  lemma PatternComplete(s: string)
    requires AddressOk(s)
    ensures Pattern(s)
  {
    var a := LastIndex(s, '@').value;
    LocalPartComplete(s[..a]);
    DomainComplete(s[a + 1..]);
    PatternIntro(s, a);
  }

  /** The checker accepts exactly the strings the expression matches. */
  lemma AddressMatchesPattern(s: string)
    ensures AddressOk(s) <==> Pattern(s)
  {
    if Pattern(s) { PatternSound(s); }
    if AddressOk(s) { PatternComplete(s); }
  }

  /** validateEmail accepts exactly the texts whose lower-case form the expression matches. */
  lemma ValidateEmailMatchesPattern(email: string)
    ensures ValidateEmail(email) <==> Pattern(Lower(email))
  {
    AddressMatchesPattern(Lower(email));
  }

  // ---------------------------------------------------------------------
  // Validation ignores the case of ASCII letters
  // ---------------------------------------------------------------------

  /** What the expression can tell about a character. */
  datatype CharKind = At | Dot | Quote | LineEnd | Atom | Excluded

  function Kind(c: char): CharKind {
    if c == '@' then At
    else if c == '.' then Dot
    else if c == '"' then Quote
    else if IsLineTerminator(c) then LineEnd
    else if IsAtomChar(c) then Atom
    else Excluded
  }

  /** Two texts of one length whose characters agree position by position in kind. */
  ghost predicate SameShape(s: string, t: string) {
    |s| == |t| && forall i :: 0 <= i < |s| ==> Kind(s[i]) == Kind(t[i])
  }

  lemma LetterIsAtom(c: char)
    requires IsAsciiLetter(c)
    ensures IsAtomChar(c)
  {
    assert c !in "<>()[]\\.,;:@\"";
  }

  /** Lower-casing a character keeps its kind: only letters change, and they stay atom characters. */
  lemma LowerCharKind(c: char)
    ensures Kind(LowerChar(c)) == Kind(c)
  {
    if 'A' <= c <= 'Z' {
      LetterIsAtom(c);
      LetterIsAtom(LowerChar(c));
    }
  }

  lemma LowerKeepsShape(s: string)
    ensures SameShape(Lower(s), s)
  {
    forall i | 0 <= i < |s|
      ensures Kind(Lower(s)[i]) == Kind(s[i])
    {
      LowerCharKind(s[i]);
    }
  }

  lemma SameShapeSlices(s: string, t: string, k: nat)
    requires SameShape(s, t) && k <= |s|
    ensures SameShape(s[..k], t[..k]) && SameShape(s[k..], t[k..])
  {
    assert forall i :: 0 <= i < k ==> s[..k][i] == s[i] && t[..k][i] == t[i];
    assert forall i :: 0 <= i < |s| - k ==> s[k..][i] == s[k + i] && t[k..][i] == t[k + i];
  }

  lemma {:induction false} LastIndexSameShape(s: string, t: string, c: char)
    requires SameShape(s, t) && (c == '@' || c == '.')
    ensures LastIndex(s, c) == LastIndex(t, c)
    decreases |s|
  {
    if |s| > 0 && s[|s| - 1] != c {
      SameShapeSlices(s, t, |s| - 1);
      LastIndexSameShape(s[..|s| - 1], t[..|t| - 1], c);
    }
  }

  /** The kind of a character decides every character test of the expression. */
  lemma KindDecides(c: char, d: char)
    requires Kind(c) == Kind(d)
    ensures IsAtomChar(c) == IsAtomChar(d) && (c == '.') == (d == '.')
    ensures (c == '"') == (d == '"') && IsLineTerminator(c) == IsLineTerminator(d)
  {
  }

  lemma DotAtomsOkSameShape(s: string, t: string)
    requires SameShape(s, t)
    ensures DotAtomsOk(s) == DotAtomsOk(t) && AllAtoms(s) == AllAtoms(t) && QuotedLocal(s) == QuotedLocal(t)
  {
    forall i | 0 <= i < |s|
      ensures IsAtomChar(s[i]) == IsAtomChar(t[i]) && (s[i] == '.') == (t[i] == '.')
      ensures (s[i] == '"') == (t[i] == '"') && IsLineTerminator(s[i]) == IsLineTerminator(t[i])
    {
      KindDecides(s[i], t[i]);
    }
  }

  lemma DomainOkSameShape(s: string, t: string)
    requires SameShape(s, t)
    ensures DomainOk(s) == DomainOk(t)
  {
    LastIndexSameShape(s, t, '.');
    match LastIndex(s, '.')
    case None =>
    case Some(d) =>
      SameShapeSlices(s, t, d);
      SameShapeSlices(s, t, d + 1);
      DotAtomsOkSameShape(s[..d], t[..d]);
      DotAtomsOkSameShape(s[d + 1..], t[d + 1..]);
  }

  lemma AddressPartsSameShape(s: string, t: string, a: nat)
    requires SameShape(s, t) && a < |s|
    ensures LocalOk(s[..a]) == LocalOk(t[..a])
    ensures DomainOk(s[a + 1..]) == DomainOk(t[a + 1..])
  {
    SameShapeSlices(s, t, a);
    SameShapeSlices(s, t, a + 1);
    DotAtomsOkSameShape(s[..a], t[..a]);
    DomainOkSameShape(s[a + 1..], t[a + 1..]);
  }

  lemma AddressOkSameShape(s: string, t: string)
    requires SameShape(s, t)
    ensures AddressOk(s) == AddressOk(t)
  {
    LastIndexSameShape(s, t, '@');
    var r := LastIndex(s, '@');
    if r.Some? {
      AddressPartsSameShape(s, t, r.value);
    }
  }

  /** Lower-casing first changes nothing: the checker gives the same answer on the text itself. */
  lemma ValidateIsCaseFree(email: string)
    ensures ValidateEmail(email) == AddressOk(email)
  {
    LowerKeepsShape(email);
    AddressOkSameShape(Lower(email), email);
  }

  /** The `i` flag and the lower-casing change nothing: validation is the expression on the text itself. */
  lemma ValidateIgnoresCase(email: string)
    ensures ValidateEmail(email) <==> Pattern(email)
  {
    ValidateIsCaseFree(email);
    AddressMatchesPattern(email);
  }

  // ---------------------------------------------------------------------
  // What every accepted address looks like
  // ---------------------------------------------------------------------

  /**
   * An address whose local part is not quoted holds exactly one '@', and its local
   * part neither begins nor ends with '.' and holds no "..".
   */
  lemma UnquotedAddressShape(s: string)
    requires |s| > 0 && s[0] != '"' && AddressOk(s)
    ensures LastIndex(s, '@').Some?
    ensures var a := LastIndex(s, '@').value;
      && 0 < a
      && (forall j :: 0 <= j < |s| && s[j] == '@' ==> j == a)
      && s[0] != '.' && s[a - 1] != '.'
      && (forall j :: 0 < j < a && s[j] == '.' ==> s[j - 1] != '.')
  {
    var a := LastIndex(s, '@').value;
    UnquotedLocalShape(s, a);
  }

  lemma UnquotedLocalShape(s: string, a: nat)
    requires a < |s| && s[a] == '@' && s[0] != '"' && LocalOk(s[..a])
    requires forall j :: a < j < |s| ==> s[j] != '@'
    ensures 0 < a
    ensures forall j :: 0 <= j < |s| && s[j] == '@' ==> j == a
    ensures s[0] != '.' && s[a - 1] != '.'
    ensures forall j :: 0 < j < a && s[j] == '.' ==> s[j - 1] != '.'
  {
    var local := s[..a];
    assert !QuotedLocal(local) by {
      if |local| > 0 { assert local[0] == s[0]; }
    }
    assert local[0] == s[0] && local[a - 1] == s[a - 1];
    forall j | 0 <= j < a
      ensures s[j] != '@'
    {
      assert local[j] == s[j];
    }
    forall j | 0 < j < a && s[j] == '.'
      ensures s[j - 1] != '.'
    {
      assert local[j] == s[j] && local[j - 1] == s[j - 1];
    }
  }

  /**
   * Every accepted address has a '.' after its last '@', and at least two
   * characters after its last '.'.
   */
  lemma AcceptedDomainShape(s: string)
    requires AddressOk(s)
    ensures LastIndex(s, '@').Some? && LastIndex(s, '.').Some?
    ensures LastIndex(s, '@').value < LastIndex(s, '.').value
    ensures |s| - LastIndex(s, '.').value - 1 >= 2
  {
    DomainLastDot(s, LastIndex(s, '@').value);
  }

  /** The last dot of a domain that follows position `a` is the last dot of the whole text. */
  lemma DomainLastDot(s: string, a: nat)
    requires a < |s| && DomainOk(s[a + 1..])
    ensures LastIndex(s, '.').Some? && a < LastIndex(s, '.').value && |s| - LastIndex(s, '.').value - 1 >= 2
  {
    var dom := s[a + 1..];
    var d := LastIndex(dom, '.').value;
    assert s[a + 1 + d] == dom[d];
    forall j | a + 1 + d < j < |s|
      ensures s[j] != '.'
    {
      assert s[j] == dom[j - a - 1];
    }
    LastIndexIs(s, '.', a + 1 + d);
  }

  /** Both shape facts hold of the text the handler validates, whatever its letter case. */
  lemma ValidatedAddressShape(email: string)
    requires ValidateEmail(email)
    ensures LastIndex(email, '@').Some? && LastIndex(email, '.').Some?
    ensures LastIndex(email, '@').value < LastIndex(email, '.').value
    ensures |email| - LastIndex(email, '.').value - 1 >= 2
    ensures email[0] != '"' ==> forall j :: 0 <= j < |email| && email[j] == '@' ==> j == LastIndex(email, '@').value
  {
    ValidateIsCaseFree(email);
    AcceptedDomainShape(email);
    if email[0] != '"' { UnquotedAddressShape(email); }
  }

  // ---------------------------------------------------------------------
  // Particular texts
  // ---------------------------------------------------------------------

  /** String(undefined) holds no '@', so a request without an address never validates. */
  lemma UndefinedIsRejected()
    ensures !ValidateEmail("undefined")
  {
    var s := "undefined";
    assert forall j :: 0 <= j < |s| ==> s[j] != '@';
    ValidateIsCaseFree(s);
  }

  predicate IsAsciiLetter(c: char) {
    'a' <= c <= 'z' || 'A' <= c <= 'Z'
  }

  lemma LettersAreAtoms(s: string)
    requires forall i :: 0 <= i < |s| ==> IsAsciiLetter(s[i])
    ensures AllAtoms(s)
    ensures |s| > 0 ==> DotAtomsOk(s)
  {
    forall i | 0 <= i < |s|
      ensures IsAtomChar(s[i])
    {
      LetterIsAtom(s[i]);
    }
  }

  lemma SampleDomainLower()
    ensures DomainOk("mail.co")
  {
    var s := "mail.co";
    LastIndexIs(s, '.', 4);
    assert s[..4] == "mail" && s[5..] == "co";
    LettersAreAtoms("mail");
    LettersAreAtoms("co");
  }

  lemma SampleDomainUpper()
    ensures DomainOk("Mail.COM")
  {
    var s := "Mail.COM";
    LastIndexIs(s, '.', 4);
    assert s[..4] == "Mail" && s[5..] == "COM";
    LettersAreAtoms("Mail");
    LettersAreAtoms("COM");
  }

  /** A quoted local part may itself hold '@', so a valid address can hold two. */
  lemma QuotedLocalMayHoldAt()
    ensures ValidateEmail("\"a@b\"@mail.co")
  {
    var s := "\"a@b\"@mail.co";
    assert s[..5] == "\"a@b\"";
    assert LocalOk(s[..5]);
    assert s[6..] == "mail.co";
    SampleDomainLower();
    AddressOkIntro(s, 5);
    ValidateIsCaseFree(s);
  }

  /** Joining two dot-atom texts with a dot gives a dot-atom text. */
  lemma JoinDotAtoms(x: string, y: string)
    requires DotAtomsOk(x) && DotAtomsOk(y)
    ensures DotAtomsOk(x + "." + y)
  {
    var s := x + "." + y;
    forall i | 0 <= i < |s|
      ensures IsAtomChar(s[i]) || s[i] == '.'
    {
      if i > |x| { assert s[i] == y[i - |x| - 1]; }
    }
    forall i | 0 < i < |s|
      ensures !(s[i] == '.' && s[i - 1] == '.')
    {
      if i < |x| { assert s[i] == x[i] && s[i - 1] == x[i - 1]; }
      else if i == |x| + 1 { assert s[i] == y[0]; }
      else if i > |x| + 1 { assert s[i] == y[i - |x| - 1] && s[i - 1] == y[i - |x| - 2]; }
    }
  }

  /** Upper-case letters are accepted as they are. */
  lemma AddressOkIntro(s: string, a: nat)
    requires a < |s| && s[a] == '@' && forall j :: a < j < |s| ==> s[j] != '@'
    requires LocalOk(s[..a]) && DomainOk(s[a + 1..])
    ensures AddressOk(s)
  {
    LastIndexIs(s, '@', a);
  }

  lemma SampleLocalMixed()
    ensures DotAtomsOk("Ana.Perez")
  {
    LettersAreAtoms("Ana");
    LettersAreAtoms("Perez");
    JoinDotAtoms("Ana", "Perez");
    assert "Ana" + "." + "Perez" == "Ana.Perez";
  }

  lemma MixedCaseIsAccepted()
    ensures ValidateEmail("Ana.Perez@Mail.COM")
  {
    var s := "Ana.Perez@Mail.COM";
    SampleLocalMixed();
    assert s[..9] == "Ana.Perez";
    assert s[10..] == "Mail.COM";
    SampleDomainUpper();
    AddressOkIntro(s, 9);
    ValidateIsCaseFree(s);
  }
}
