// The names of the built-in agents in both dialects, by the words themselves (contract.generated.ts).
module HarnessNames {
  import opened Common
  import opened Harness

  /** What `String.prototype.trim` removes. */
  ghost predicate Blank(c: char) {
    c in {'\t', '\n', '\U{000B}', '\U{000C}', '\r', ' ', '\U{00A0}', '\U{1680}', '\U{2000}', '\U{2001}', '\U{2002}',
          '\U{2003}', '\U{2004}', '\U{2005}', '\U{2006}', '\U{2007}', '\U{2008}', '\U{2009}', '\U{200A}', '\U{2028}',
          '\U{2029}', '\U{202F}', '\U{205F}', '\U{3000}', '\U{FEFF}'}
  }

  /** The word in any mixture of capital and small letters. */
  ghost predicate Spells(text: string, word: string) {
    && |text| == |word|
    && forall i | 0 <= i < |word| ::
         text[i] == word[i] || ('A' <= text[i] <= 'Z' && word[i] as int == text[i] as int + 32)
  }

  /** The word so spelled, with white space around it. */
  ghost predicate Means(id: string, word: string) {
    exists i, k | 0 <= i <= k <= |id| ::
      && Spells(id[i..k], word)
      && (forall j | 0 <= j < i :: Blank(id[j]))
      && (forall j | k <= j < |id| :: Blank(id[j]))
  }

  /** A word with nothing in it that spelling or padding could change. */
  ghost predicate Plain(word: string) {
    word != [] && forall i | 0 <= i < |word| :: 'a' <= word[i] <= 'z'
  }

  lemma BlankIsSpace(c: char)
    ensures Blank(c) <==> IsSpace(c)
  {
  }

  lemma {:induction false} TrimStartDrops(s: string, i: nat)
    requires i <= |s| && forall j | 0 <= j < i :: IsSpace(s[j])
    requires i < |s| ==> !IsSpace(s[i])
    ensures TrimStart(s) == s[i..]
  {
    if i > 0 {
      TrimStartDrops(s[1..], i - 1);
      assert s[1..][i - 1..] == s[i..];
    }
  }

  lemma {:induction false} TrimEndDrops(s: string, k: nat)
    requires k <= |s| && forall j | k <= j < |s| :: IsSpace(s[j])
    requires k > 0 ==> !IsSpace(s[k - 1])
    ensures TrimEnd(s) == s[..k]
    decreases |s|
  {
    if k < |s| {
      TrimEndDrops(s[..|s| - 1], k);
      assert s[..|s| - 1][..k] == s[..k];
    }
  }

  lemma {:induction false} TrimStartIs(s: string) returns (i: nat)
    ensures i <= |s| && TrimStart(s) == s[i..] && forall j | 0 <= j < i :: IsSpace(s[j])
  {
    hide IsSpace;
    i := 0;
    if s != [] && IsSpace(s[0]) {
      i := TrimStartIs(s[1..]);
      assert s[1..][i..] == s[i + 1..];
      assert forall j | 0 < j < i + 1 :: s[j] == s[1..][j - 1];
      i := i + 1;
    }
  }

  lemma {:induction false} TrimEndIs(s: string) returns (k: nat)
    ensures k <= |s| && TrimEnd(s) == s[..k] && forall j | k <= j < |s| :: IsSpace(s[j])
    decreases |s|
  {
    hide IsSpace;
    k := |s|;
    if s != [] && IsSpace(s[|s| - 1]) {
      var t := s[..|s| - 1];
      k := TrimEndIs(t);
      assert t[..k] == s[..k];
      assert forall j | k <= j < |t| :: s[j] == t[j];
    }
  }

  /** Trimming takes off what is blank at both ends. */
  lemma TrimIs(s: string) returns (i: nat, k: nat)
    ensures i <= k <= |s| && Trim(s) == s[i..k]
    ensures forall j | 0 <= j < i || k <= j < |s| :: IsSpace(s[j])
  {
    hide IsSpace, TrimStart, TrimEnd;
    i := TrimStartIs(s);
    var t := s[i..];
    k := TrimEndIs(t);
    assert t[..k] == s[i..i + k];
    assert forall j | i + k <= j < |s| :: s[j] == t[j - i];
    k := i + k;
  }

  lemma TrimDrops(s: string, i: nat, k: nat)
    requires i < k <= |s| && forall j | 0 <= j < i || k <= j < |s| :: IsSpace(s[j])
    requires !IsSpace(s[i]) && !IsSpace(s[k - 1])
    ensures Trim(s) == s[i..k]
  {
    hide IsSpace, TrimStart, TrimEnd;
    TrimStartDrops(s, i);
    var t := s[i..];
    assert forall j | k - i <= j < |t| :: t[j] == s[j + i];
    TrimEndDrops(t, k - i);
    assert t[..k - i] == s[i..k];
  }

  lemma TrimMeans(id: string, word: string)
    requires Spells(Trim(id), word)
    ensures Means(id, word)
  {
    hide Spells, Trim, Blank, IsSpace;
    var i, k := TrimIs(id);
    forall j | 0 <= j < i || k <= j < |id|
      ensures Blank(id[j])
    {
      BlankIsSpace(id[j]);
    }
  }

  lemma NoSpaceInWords(text: string, word: string, i: nat)
    requires Plain(word) && Spells(text, word) && i < |text|
    ensures !IsSpace(text[i])
  {
  }

  lemma PaddedTrim(id: string, word: string, i: nat, k: nat)
    requires i <= k <= |id| && Spells(id[i..k], word) && Plain(word)
    requires forall j | 0 <= j < i :: Blank(id[j])
    requires forall j | k <= j < |id| :: Blank(id[j])
    ensures Spells(Trim(id), word)
  {
    assert |id[i..k]| == |word| > 0;
    hide Spells, Trim, Blank, IsSpace, Plain;
    forall j | 0 <= j < i || k <= j < |id|
      ensures IsSpace(id[j])
    {
      BlankIsSpace(id[j]);
    }
    NoSpaceInWords(id[i..k], word, 0);
    NoSpaceInWords(id[i..k], word, k - 1 - i);
    TrimDrops(id, i, k);
  }

  lemma MeansTrim(id: string, word: string)
    requires Means(id, word) && Plain(word)
    ensures Spells(Trim(id), word)
  {
    hide Spells, Trim, Blank, Plain;
    var i, k :| 0 <= i <= k <= |id| && Spells(id[i..k], word)
                && (forall j | 0 <= j < i :: Blank(id[j])) && (forall j | k <= j < |id| :: Blank(id[j]));
    PaddedTrim(id, word, i, k);
  }

  lemma LowerSpells(text: string, word: string)
    requires Plain(word)
    ensures Lower(text) == word <==> Spells(text, word)
  {
    if Lower(text) == word {
      assert forall i | 0 <= i < |word| :: word[i] == Lower(text)[i];
    }
    if Spells(text, word) {
      assert forall i | 0 <= i < |word| :: word[i] == Lower(text)[i];
    }
  }

  ghost predicate IsMinimal(id: string) {
    Means(id, "minimal")
  }

  ghost predicate IsStandard(id: string) {
    Means(id, "standard") || Means(id, "balanced") || Means(id, "agentic")
  }

  ghost predicate IsUltimate(id: string) {
    Means(id, "ultimate") || Means(id, "ultra")
  }

  ghost predicate IsCreative(id: string) {
    Means(id, "creative")
  }

  lemma Lowers(text: string, word: string)
    requires Plain(word) && Spells(text, word)
    ensures Lower(text) == word
  {
    hide Spells, Lower;
    LowerSpells(text, word);
  }

  lemma LowerOfMinimal(key: string)
    requires key in {"Minimal", "minimal"}
    ensures Lower(key) == "minimal"
  {
    hide Lower;
    Lowers(key, "minimal");
  }

  lemma LowerOfStandard(key: string)
    requires key in {"Standard", "standard", "balanced", "agentic", "Agentic"}
    ensures Lower(key) in {"standard", "balanced", "agentic"}
  {
    hide Lower;
    if key in {"Standard", "standard"} {
      Lowers(key, "standard");
    } else if key == "balanced" {
      Lowers(key, "balanced");
    } else {
      Lowers(key, "agentic");
    }
  }

  lemma LowerOfUltimate(key: string)
    requires key in {"Ultimate", "ultimate", "Ultra", "ultra"}
    ensures Lower(key) in {"ultimate", "ultra"}
  {
    hide Lower;
    if key in {"Ultimate", "ultimate"} {
      Lowers(key, "ultimate");
    } else {
      Lowers(key, "ultra");
    }
  }

  lemma LowerOfCreative(key: string)
    requires key in {"Creative", "creative"}
    ensures Lower(key) == "creative"
  {
    hide Lower;
    Lowers(key, "creative");
  }

  lemma NoCapitalInLower(key: string)
    ensures Lower(key) !in {"Minimal", "Standard", "Agentic", "Ultimate", "Ultra", "Creative"}
  {
    if key != [] {
      var first := Lower(key)[0];
      assert !('A' <= first <= 'Z');
    }
  }

  /** The recognised identities by their small letters. */
  function Recognise(low: string): Option<HarnessId> {
    if low == "minimal" then Some(Minimal)
    else if low in {"standard", "balanced", "agentic"} then Some(Standard)
    else if low in {"ultimate", "ultra"} then Some(Ultimate)
    else if low == "creative" then Some(Creative)
    else None
  }

  lemma AliasByLower(key: string)
    ensures (if Alias(key).Some? then Alias(key) else Alias(Lower(key))) == Recognise(Lower(key))
  {
    hide Lower;
    NoCapitalInLower(key);
    if key in {"Minimal", "minimal"} {
      LowerOfMinimal(key);
    } else if key in {"Standard", "standard", "balanced", "agentic", "Agentic"} {
      LowerOfStandard(key);
    } else if key in {"Ultimate", "ultimate", "Ultra", "ultra"} {
      LowerOfUltimate(key);
    } else if key in {"Creative", "creative"} {
      LowerOfCreative(key);
    }
  }

  lemma TrimLower(id: string, word: string)
    requires Plain(word)
    ensures Means(id, word) <==> Lower(Trim(id)) == word
  {
    hide Means, Spells, Lower, Trim;
    LowerSpells(Trim(id), word);
    if Means(id, word) {
      MeansTrim(id, word);
    }
    if Lower(Trim(id)) == word {
      TrimMeans(id, word);
    }
  }

  /** Which identities are recognised, and as what. */
  lemma RecognisedExactly(id: string)
    ensures CanonicalHarnessId(id) == Some(Minimal) <==> IsMinimal(id)
    ensures CanonicalHarnessId(id) == Some(Standard) <==> IsStandard(id)
    ensures CanonicalHarnessId(id) == Some(Ultimate) <==> IsUltimate(id)
    ensures CanonicalHarnessId(id) == Some(Creative) <==> IsCreative(id)
  {
    TrimLower(id, "minimal");
    TrimLower(id, "standard");
    TrimLower(id, "balanced");
    TrimLower(id, "agentic");
    TrimLower(id, "ultimate");
    TrimLower(id, "ultra");
    TrimLower(id, "creative");
    hide Means, Trim, Lower, Alias;
    AliasByLower(Trim(id));
    EmptyKey();
  }

  lemma EmptyKey()
    ensures Lower("") == ""
  {
  }

  // ----- the two tables -----

  ghost function CanonicalName(id: string): string {
    if IsMinimal(id) then "Minimal"
    else if IsStandard(id) then "Standard"
    else if IsUltimate(id) then "Ultimate"
    else if IsCreative(id) then "Creative"
    else id
  }

  ghost function LegacyName(id: string): string {
    if IsMinimal(id) then "minimal"
    else if IsStandard(id) then "agentic"
    else if IsUltimate(id) then "Ultra"
    else if IsCreative(id) then "Creative"
    else id
  }

  /** The name of an agent, or of the profile of its configuration, in a dialect. */
  ghost function NameIn(id: string, d: Dialect, profile: bool): string {
    if profile && (id == "coding_shared" || IsStandard(id)) then
      if d.Canonical? then "Standard" else "coding_shared"
    else if d.Canonical? then CanonicalName(id)
    else LegacyName(id)
  }

  lemma CanonicalAgentIdIs(id: string)
    ensures CanonicalAgentId(id) == CanonicalName(id)
  {
    hide IsMinimal, IsStandard, IsUltimate, IsCreative, CanonicalHarnessId;
    RecognisedExactly(id);
  }

  lemma LegacyAgentWireIdIs(id: string)
    ensures LegacyAgentWireId(id) == LegacyName(id)
  {
    hide IsMinimal, IsStandard, IsUltimate, IsCreative, CanonicalHarnessId;
    RecognisedExactly(id);
  }

  /** Every identity, in both dialects, agent or profile: the translation is the name in the tables. */
  lemma IdentityIsNameIn(id: string, d: Dialect, profile: bool)
    ensures Identity(id, d, profile) == NameIn(id, d, profile)
  {
    hide IsMinimal, IsStandard, IsUltimate, IsCreative, CanonicalHarnessId;
    RecognisedExactly(id);
    var h := CanonicalHarnessId(id);
    if h.Some? {
      NamesAreRecognised(h.value);
    }
    NamesAreRecognised(Standard);
  }

  lemma OneName(id: string, d: Dialect, profile: bool)
    ensures NameIn(NameIn(id, d, profile), d, profile) == NameIn(id, d, profile)
  {
    hide NameIn, Identity;
    IdentityIsNameIn(id, d, profile);
    IdentityIsNameIn(NameIn(id, d, profile), d, profile);
    IdentityLastWins(id, d, d, profile);
  }

  lemma NotPadded(id: string, word: string)
    requires id != [] && !Blank(id[0]) && !Blank(id[|id| - 1])
    ensures Means(id, word) ==> |id| == |word| || word == []
  {
    hide Blank;
  }

  lemma CodingSharedIsNoAgent()
    ensures !IsStandard("coding_shared")
  {
    hide Means;
    NotPadded("coding_shared", "standard");
    NotPadded("coding_shared", "balanced");
    NotPadded("coding_shared", "agentic");
  }

  /** A name in a dialect is the only one that the dialect has for it. */
  lemma OnlyName(id: string, d: Dialect, profile: bool)
    ensures NameIn(NameIn(id, d, profile), d, profile) == NameIn(id, d, profile)
    ensures IsStandard(NameIn(id, d, profile)) ==>
              NameIn(id, d, profile) == (if d.Canonical? then "Standard" else "agentic") && (d.Legacy? ==> !profile)
  {
    hide IsMinimal, IsStandard, IsUltimate, IsCreative, CanonicalHarnessId;
    OneName(id, d, profile);
    RecognisedExactly(NameIn(id, d, profile));
    CodingSharedIsNoAgent();
  }

  lemma AgenticIsStandard()
    ensures NameIn(" AGENTIC", Canonical, false) == "Standard"
    ensures NameIn("Standard", Legacy, false) == "agentic"
    ensures NameIn("coding_shared", Canonical, true) == "Standard"
  {
    AgenticMeansStandard();
    hide IsMinimal, IsStandard, IsUltimate, IsCreative, CanonicalHarnessId;
    RecognisedExactly(" AGENTIC");
    NamesAreRecognised(Standard);
    RecognisedExactly("Standard");
  }

  lemma AgenticMeansStandard()
    ensures IsStandard(" AGENTIC")
  {
    var id := " AGENTIC";
    assert id[1..8] == "AGENTIC";
    assert Spells("AGENTIC", "agentic");
  }
}
