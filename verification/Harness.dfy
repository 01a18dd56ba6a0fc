// Agent identities and their two dialects (contract.generated.ts and `identity` in wire.ts).
module Harness {
  import opened Common

  datatype HarnessId = Minimal | Standard | Ultimate | Creative

  function Name(h: HarnessId): string {
    match h
    case Minimal => "Minimal"
    case Standard => "Standard"
    case Ultimate => "Ultimate"
    case Creative => "Creative"
  }

  function LegacyWireId(h: HarnessId): string {
    match h
    case Minimal => "minimal"
    case Standard => "agentic"
    case Ultimate => "Ultra"
    case Creative => "Creative"
  }

  function Alias(key: string): Option<HarnessId> {
    if key in {"Minimal", "minimal"} then Some(Minimal)
    else if key in {"Standard", "standard", "balanced", "agentic", "Agentic"} then Some(Standard)
    else if key in {"Ultimate", "ultimate", "Ultra", "ultra"} then Some(Ultimate)
    else if key in {"Creative", "creative"} then Some(Creative)
    else None
  }

  /** White space and line terminators, as `String.prototype.trim` takes them. */
  predicate IsSpace(c: char) {
    var n := c as int;
    || 9 <= n <= 13 || n == 32 || n == 0xA0 || n == 0x1680 || 0x2000 <= n <= 0x200A
    || n in {0x2028, 0x2029, 0x202F, 0x205F, 0x3000, 0xFEFF}
  }

  function TrimStart(s: string): string {
    if s != [] && IsSpace(s[0]) then TrimStart(s[1..]) else s
  }

  function TrimEnd(s: string): string {
    if s != [] && IsSpace(s[|s| - 1]) then TrimEnd(s[..|s| - 1]) else s
  }

  function Trim(s: string): string {
    TrimEnd(TrimStart(s))
  }

  /** Lower case, as far as it can lead to an alias: of the other letters none becomes a letter of one. */
  function Lower(s: string): string {
    seq(|s|, i requires 0 <= i < |s| => if 'A' <= s[i] <= 'Z' then (s[i] as int + 32) as char else s[i])
  }

  function CanonicalHarnessId(id: string): Option<HarnessId> {
    var key := Trim(id);
    if key == "" then None else if Alias(key).Some? then Alias(key) else Alias(Lower(key))
  }

  function CanonicalAgentId(id: string): string {
    var h := CanonicalHarnessId(id);
    if h.Some? then Name(h.value) else id
  }

  function LegacyAgentWireId(id: string): string {
    var h := CanonicalHarnessId(id);
    if h.Some? then LegacyWireId(h.value) else id
  }

  function CanonicalAgentConfigId(id: string): string {
    if id == "coding_shared" then Name(Standard) else CanonicalAgentId(id)
  }

  datatype Dialect = Canonical | Legacy

  function Identity(id: string, dialect: Dialect, profile: bool): string {
    var canonical := if profile then CanonicalAgentConfigId(id) else CanonicalAgentId(id);
    if dialect.Canonical? then canonical
    else if profile && canonical == "Standard" then "coding_shared"
    else LegacyAgentWireId(canonical)
  }

  /** Names that are recognised as they stand. */
  lemma Recognised(id: string, h: HarnessId)
    requires id != "" && !IsSpace(id[0]) && !IsSpace(id[|id| - 1]) && Alias(id) == Some(h)
    ensures CanonicalHarnessId(id) == Some(h)
  {
  }

  lemma NamesAreRecognised(h: HarnessId)
    ensures CanonicalHarnessId(Name(h)) == Some(h) && CanonicalHarnessId(LegacyWireId(h)) == Some(h)
  {
    Recognised(Name(h), h);
    Recognised(LegacyWireId(h), h);
  }

  /** The last dialect wins: translating to one and then to another is translating to the other. */
  lemma IdentityLastWins(id: string, first: Dialect, last: Dialect, profile: bool)
    ensures Identity(Identity(id, first, profile), last, profile) == Identity(id, last, profile)
  {
    hide Trim, Lower, Alias;
    var h := if profile && id == "coding_shared" then Some(Standard) else CanonicalHarnessId(id);
    if h.Some? {
      hide CanonicalHarnessId;
      NamesAreRecognised(h.value);
    } else {
      UnknownIsNoName(id);
    }
  }

  lemma UnknownIsNoName(id: string)
    requires CanonicalHarnessId(id) == None
    ensures id != "Standard"
  {
    if id == "Standard" {
      NamesAreRecognised(Standard);
    }
  }

  /** Two identities that are one in some dialect are one in every dialect. */
  lemma DialectsAgree(a: string, b: string, d: Dialect, d': Dialect, profile: bool)
    ensures Identity(a, d, profile) == Identity(b, d, profile) <==> Identity(a, d', profile) == Identity(b, d', profile)
  {
    hide Identity;
    IdentityLastWins(a, d, d', profile);
    IdentityLastWins(b, d, d', profile);
    IdentityLastWins(a, d', d, profile);
    IdentityLastWins(b, d', d, profile);
  }
}
