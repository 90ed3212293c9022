/** The Build record kept in the history, and the text of the random
    UUID that `Build.newBuild` gives each build as its id. The generator
    and the clock are not modelled: `NewBuild` receives their values. */
module Builds {
  import opened Wrappers

  /** Every field is a nullable Java reference; `status` is a boxed
      Boolean, so it too may be null. */
  datatype Build = Build(
    id: Option<string>,
    commitId: Option<string>,
    branch: Option<string>,
    timestamp: Option<string>,
    status: Option<bool>,
    log: Option<string>)

  /** The no-argument constructor (used when the history is read back):
      nothing is set, so every field is null. */
  function Blank(): (b: Build)
    ensures b.id.None? && b.commitId.None? && b.branch.None?
    ensures b.timestamp.None? && b.status.None? && b.log.None?
  {
    Build(None, None, None, None, None, None)
  }

  /* ---------------------------------------------------------------
     Random UUIDs as text
     --------------------------------------------------------------- */

  type Nibble = n: nat | n < 16

  /** What UUID.randomUUID can return: 32 hex digits of which the 13th
      is the version (4) and the 17th carries the IETF variant (binary
      10xx, so 8 to b). */
  predicate IsRandomUuid(u: seq<Nibble>) {
    |u| == 32 && u[12] == 4 && 8 <= u[16] < 12
  }

  type RandomUuid = u: seq<Nibble> | IsRandomUuid(u)
    witness seq(32, i => if i == 12 then 4 else if i == 16 then 8 else 0)

  const HexDigits: string := "0123456789abcdef"

  predicate IsHexDigit(c: char) {
    '0' <= c <= '9' || 'a' <= c <= 'f'
  }

  function HexDigit(n: Nibble): (c: char)
    ensures IsHexDigit(c)
  {
    HexDigits[n]
  }

  function HexValue(c: char): (n: Nibble)
    requires IsHexDigit(c)
    ensures HexDigit(n) == c
  {
    if c <= '9' then c as int - '0' as int else c as int - 'a' as int + 10
  }

  lemma HexValueOfDigit(n: Nibble)
    ensures HexValue(HexDigit(n)) == n
  {
  }

  /** The positions of a UUID's text that hold hex digits; the other four
      hold the dashes between the groups of 8, 4, 4, 4 and 12 digits. */
  predicate IsDigitPosition(j: int) {
    0 <= j < 36 && j != 8 && j != 13 && j != 18 && j != 23
  }

  /** Where the i-th hex digit is printed. */
  function TextIndex(i: nat): (j: nat)
    requires i < 32
    ensures IsDigitPosition(j)
  {
    if i < 8 then i else if i < 12 then i + 1 else if i < 16 then i + 2 else if i < 20 then i + 3 else i + 4
  }

  /** Which hex digit a digit position prints. */
  function NibbleIndex(j: nat): (i: nat)
    requires IsDigitPosition(j)
    ensures i < 32 && TextIndex(i) == j
  {
    if j < 8 then j else if j < 13 then j - 1 else if j < 18 then j - 2 else if j < 23 then j - 3 else j - 4
  }

  /** Canonical UUID text: 36 characters, dashes at the group borders and
      hex digits everywhere else. */
  predicate IsUuidText(s: string) {
    && |s| == 36
    && forall j | 0 <= j < 36 :: if IsDigitPosition(j) then IsHexDigit(s[j]) else s[j] == '-'
  }

  /** UUID.toString: the 32 digits in lower-case hex, grouped 8-4-4-4-12
      with dashes between the groups. */
  function UuidText(u: RandomUuid): (r: string)
    ensures IsUuidText(r)
    ensures r[14] == '4'
  {
    seq(36, j requires 0 <= j < 36 => if IsDigitPosition(j) then HexDigit(u[NibbleIndex(j)]) else '-')
  }

  /** Reads canonical UUID text back to its digits; anything else is
      refused. */
  function ParseUuid(s: string): (r: Option<seq<Nibble>>)
    ensures r.Some? <==> IsUuidText(s)
    ensures r.Some? ==> |r.value| == 32
  {
    if IsUuidText(s) then
      Some(seq(32, i requires 0 <= i < 32 => HexValue(s[TextIndex(i)])))
    else
      None
  }

  /** The id text names the UUID it was printed from. */
  lemma UuidRoundTrip(u: RandomUuid)
    ensures ParseUuid(UuidText(u)) == Some(u)
  {
    var s := UuidText(u);
    var r := ParseUuid(s).value;
    forall i | 0 <= i < 32
      ensures r[i] == u[i]
    {
      assert NibbleIndex(TextIndex(i)) == i;
      assert s[TextIndex(i)] == HexDigit(u[i]);
      HexValueOfDigit(u[i]);
    }
    assert r == u;
  }

  /** ... and reading then printing gives the text back. */
  lemma UuidTextRoundTrip(s: string)
    requires ParseUuid(s).Some? && IsRandomUuid(ParseUuid(s).value)
    ensures UuidText(ParseUuid(s).value) == s
  {
    var u: RandomUuid := ParseUuid(s).value;
    var t := UuidText(u);
    forall j | 0 <= j < 36
      ensures t[j] == s[j]
    {
      if IsDigitPosition(j) {
        assert TextIndex(NibbleIndex(j)) == j;
      }
    }
  }

  /** Distinct random UUIDs give distinct ids. */
  lemma UuidTextInjective(u: RandomUuid, v: RandomUuid)
    requires UuidText(u) == UuidText(v)
    ensures u == v
  {
    UuidRoundTrip(u);
    UuidRoundTrip(v);
  }

  /** Instant.toString is never empty. */
  type InstantText = s: string | |s| > 0 witness "0"

  /** Build.newBuild with the random UUID and the current instant passed in:
      the id is the UUID's text and the timestamp the instant's, while
      commit, branch, status and log are stored as given. */
  function NewBuild(uuid: RandomUuid, now: InstantText, commitId: Option<string>, branch: Option<string>,
                    status: Option<bool>, log: Option<string>): (b: Build)
    ensures b.id.Some? && ParseUuid(b.id.value) == Some(uuid)
    ensures b.timestamp == Some(now) && |b.timestamp.value| > 0
    ensures b.commitId == commitId && b.branch == branch && b.status == status && b.log == log
  {
    UuidRoundTrip(uuid);
    Build(Some(UuidText(uuid)), commitId, branch, Some(now), status, log)
  }

  /** Builds made from different UUIDs never share an id. */
  lemma NewBuildIdsDiffer(u: RandomUuid, v: RandomUuid, now: InstantText, later: InstantText,
                          c: Option<string>, c': Option<string>, br: Option<string>, br': Option<string>,
                          st: Option<bool>, st': Option<bool>, log: Option<string>, log': Option<string>)
    requires u != v
    ensures NewBuild(u, now, c, br, st, log).id != NewBuild(v, later, c', br', st', log').id
  {
    if UuidText(u) == UuidText(v) {
      UuidTextInjective(u, v);
    }
  }
}
