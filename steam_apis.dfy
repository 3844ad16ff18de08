/**
 * Steam id rules of lib/steam/steamApis.ts: reading a 64-bit id out of a
 * profile link, resolving a vanity name through Steam's ResolveVanityURL,
 * converting a 64-bit id to the 32-bit account number, and reading the
 * GetPlayerSummaries and GetPlayerBans replies. The network requests are
 * inputs: the outcome of the HEAD request on the link, the ResolveVanityURL
 * reply for each name, and the two HTTP replies.
 */
module SteamApis {
  import opened Text

  /** The offset between a 64-bit Steam id and its 32-bit account number. */
  const Steam32Offset: nat := 76561197960265728

  datatype SteamIds = SteamIds(steamId64: string, steamId32: string)

  /** How the HEAD request on the submitted link went. */
  datatype Probe = Reachable | NotOk | FetchThrew(message: string)

  /** The parts of a ResolveVanityURL reply that are read. */
  datatype VanityReply = VanityReply(ok: bool, success: Option<int>, steamId: Option<string>)

  const InvalidUrl := "Invalid Steam URL provided (must start with http/https)."
  const NotAccessible := "Provided Steam Profile URL is not accessible."
  const NoSteamId := "Steam API did not return a valid Steam ID."
  const Unsupported := "Unable to parse Steam ID from URL. Unsupported format."
  const VanityFailed := "Steam API failed to resolve vanity URL."

  const ProfilesMarker := "steamcommunity.com/profiles/"
  const VanityMarker := "steamcommunity.com/id/"

  // ---------------------------------------------------------------------------
  // convert64to32

  /** The value of a digit in bases up to 16, or 16 for any other character. */
  function DigitValue(c: char): (v: nat)
    ensures v <= 16
    ensures IsDigit(c) ==> v == c as int - '0' as int
  {
    if '0' <= c <= '9' then c as int - '0' as int
    else if 'a' <= c <= 'f' then c as int - 'a' as int + 10
    else if 'A' <= c <= 'F' then c as int - 'A' as int + 10
    else 16
  }

  predicate AllRadixDigits(s: string, base: nat) {
    forall i :: 0 <= i < |s| ==> DigitValue(s[i]) < base
  }

  /** The value of digits in `base`, most significant first. */
  function ParseRadix(s: string, base: nat): nat
    requires AllRadixDigits(s, base)
  {
    if s == [] then 0 else ParseRadix(s[..|s| - 1], base) * base + DigitValue(s[|s| - 1])
  }

  /** The base a `0x`, `0o` or `0b` prefix names, or 0 for any other letter. */
  function RadixOf(c: char): nat {
    if c == 'x' || c == 'X' then 16
    else if c == 'o' || c == 'O' then 8
    else if c == 'b' || c == 'B' then 2
    else 0
  }

  /** `BigInt(text)` for text: white space around it is ignored, a sign may
      lead decimal digits, `0x`, `0o` and `0b` introduce hexadecimal, octal
      and binary digits without a sign, and blank text reads as 0. */
  function BigIntOf(text: string): (r: Option<int>)
    ensures text != [] && AllDigits(text) ==> r == Some(ParseNat(text) as int)
  {
    ReadTrimmed(Trim(text))
  }

  /** The reading of already trimmed text: anything read begins with a digit
      or a sign. */
  function ReadTrimmed(t: string): (r: Option<int>)
    ensures t != [] && AllDigits(t) ==> r == Some(ParseNat(t) as int)
    ensures r.Some? && t != [] ==> IsDigit(t[0]) || t[0] == '-' || t[0] == '+'
  {
    if t == [] then Some(0)
    else if (t[0] == '-' || t[0] == '+') && |t| > 1 && AllDigits(t[1..]) then
      Some(if t[0] == '-' then 0 - ParseNat(t[1..]) else ParseNat(t[1..]))
    else if |t| > 2 && t[0] == '0' && RadixOf(t[1]) > 0 && AllRadixDigits(t[2..], RadixOf(t[1])) then
      Some(ParseRadix(t[2..], RadixOf(t[1])))
    else if AllDigits(t) then Some(ParseNat(t))
    else None
  }

  /** Text with a `0x`, `0o` or `0b` prefix (either case) and at least one
      digit of that base is read as a number in that base. */
  lemma RadixPrefixRead(c: char, d: string)
    requires RadixOf(c) > 0 && d != [] && AllRadixDigits(d, RadixOf(c))
    ensures ReadTrimmed(['0', c] + d) == Some(ParseRadix(d, RadixOf(c)))
  {
    var t := ['0', c] + d;
    assert t[0] == '0' && t[1] == c && t[2..] == d;
  }

  /** For instance "0x10" is sixteen. */
  lemma HexPrefixRead()
    ensures ReadTrimmed("0x10") == Some(16)
  {
    assert "0x10" == ['0', 'x'] + "10";
    assert AllRadixDigits("10", 16);
    RadixPrefixRead('x', "10");
    assert ParseRadix("10", 16) == 16 by {
      assert "10"[..1] == "1";
      assert ParseRadix("1", 16) == 1 by { assert "1"[..0] == ""; }
    }
  }

  /** `convert64to32`: the id minus the offset, in decimal, with no range check;
      text `BigInt` cannot read throws. */
  function Convert64To32(steam64: string): (r: Result<string>)
    ensures r.Err? <==> BigIntOf(steam64).None?
    ensures r.Err? ==> r.message == "Cannot convert " + steam64 + " to a BigInt"
  {
    match BigIntOf(steam64)
    case Some(v) => Ok(IntToString(v - Steam32Offset))
    case None => Err("Cannot convert " + steam64 + " to a BigInt")
  }

  /** For a digit string the conversion succeeds, and reading its result back
      and adding the offset gives the 64-bit id. */
  lemma ConvertRoundTrip(steam64: string)
    requires steam64 != [] && AllDigits(steam64)
    ensures Convert64To32(steam64).Ok?
    ensures var s := Convert64To32(steam64).value;
      s != [] && (if s[0] == '-' then AllDigits(s[1..]) else AllDigits(s))
      && ParseInt(s) + Steam32Offset == ParseNat(steam64)
  {
    IntToStringRoundTrip(ParseNat(steam64) - Steam32Offset);
  }

  /** Ids below the offset are not rejected: they convert to negative numbers. */
  lemma SmallIdsGoNegative(steam64: string)
    requires steam64 != [] && AllDigits(steam64) && ParseNat(steam64) < Steam32Offset
    ensures Convert64To32(steam64).Ok? && Convert64To32(steam64).value[0] == '-'
  {
  }

  // ---------------------------------------------------------------------------
  // The two link patterns

  /** The longest run from `i` of characters satisfying `ok`. */
  function Run(s: string, i: nat, ok: char -> bool): (r: string)
    requires i <= |s|
    ensures i + |r| <= |s| && r == s[i..i + |r|]
    ensures forall k :: 0 <= k < |r| ==> ok(r[k])
    ensures i + |r| == |s| || !ok(s[i + |r|])
    decreases |s| - i
  {
    if i == |s| || !ok(s[i]) then [] else [s[i]] + Run(s, i + 1, ok)
  }

  /** `marker` at `p`, followed by at least one character satisfying `ok`. */
  predicate MatchesAt(s: string, marker: string, ok: char -> bool, p: nat) {
    OccursAt(s, marker, p) && p + |marker| < |s| && ok(s[p + |marker|])
  }

  /** The leftmost position at or after `from` where the pattern matches. */
  function FirstMatch(s: string, marker: string, ok: char -> bool, from: nat): (r: Option<nat>)
    ensures r.Some? ==> from <= r.value && MatchesAt(s, marker, ok, r.value)
    ensures r.Some? ==> forall p :: from <= p < r.value ==> !MatchesAt(s, marker, ok, p)
    ensures r.None? ==> forall p :: from <= p ==> !MatchesAt(s, marker, ok, p)
    decreases |s| - from
  {
    if from >= |s| then None
    else if MatchesAt(s, marker, ok, from) then Some(from)
    else FirstMatch(s, marker, ok, from + 1)
  }

  /** The capture group of `marker(ok+)` on its leftmost match, if any. */
  function Capture(s: string, marker: string, ok: char -> bool): (r: Option<string>)
    ensures r.Some? ==> r.value != [] && forall k :: 0 <= k < |r.value| ==> ok(r.value[k])
    ensures r.Some? ==> FirstMatch(s, marker, ok, 0).Some?
    ensures r.Some? ==>
      var p := FirstMatch(s, marker, ok, 0).value;
      && (forall q :: 0 <= q < p ==> !MatchesAt(s, marker, ok, q))
      && OccursAt(s, marker + r.value, p)
      && (p + |marker| + |r.value| == |s| || !ok(s[p + |marker| + |r.value|]))
    ensures r.None? <==> forall p: nat :: !MatchesAt(s, marker, ok, p)
  {
    match FirstMatch(s, marker, ok, 0)
    case None => None
    case Some(p) =>
      RunAfterMarker(s, marker, ok, p);
      Some(Run(s, p + |marker|, ok))
  }

  /** On a match, the marker followed by the run after it occurs at the match. */
  lemma RunAfterMarker(s: string, marker: string, ok: char -> bool, p: nat)
    requires MatchesAt(s, marker, ok, p)
    ensures OccursAt(s, marker + Run(s, p + |marker|, ok), p)
  {
    var g := Run(s, p + |marker|, ok);
    assert s[p..p + |marker| + |g|] == s[p..p + |marker|] + s[p + |marker|..p + |marker| + |g|];
  }

  predicate NotSlash(c: char) { c != '/' }

  /** `/steamcommunity\.com\/profiles\/(\d+)/` on the lower-cased link. */
  function ProfilesMatch(lowerUrl: string): Option<string> {
    Capture(lowerUrl, ProfilesMarker, IsDigit)
  }

  /** `/steamcommunity\.com\/id\/([^/]+)/` on the lower-cased link. */
  function VanityMatch(lowerUrl: string): Option<string> {
    Capture(lowerUrl, VanityMarker, NotSlash)
  }

  // ---------------------------------------------------------------------------
  // getSteamIDsFromProfileUrl and resolveVanityURL

  /** `resolveVanityURL`: the `steamid` of a reply that is ok and reports
      success 1; anything else throws. */
  function ResolveVanity(reply: VanityReply): (r: Result<Option<string>>)
    ensures r.Ok? <==> reply.ok && reply.success == Some(1)
    ensures r.Ok? ==> r.value == reply.steamId
    ensures r.Err? ==> r.message == VanityFailed
  {
    if !reply.ok || reply.success != Some(1) then Err(VanityFailed) else Ok(reply.steamId)
  }

  /** The id pair for a 64-bit id, or the conversion's error. */
  function IdsFor(steam64: string): (r: Result<SteamIds>)
    ensures r.Ok? ==> r.value.steamId64 == steam64 && Convert64To32(steam64) == Ok(r.value.steamId32)
    ensures r.Err? ==> Convert64To32(steam64).Err?
  {
    match Convert64To32(steam64)
    case Ok(s32) => Ok(SteamIds(steam64, s32))
    case Err(m) => Err(m)
  }

  function GetSteamIds(steamProfileUrl: string, probe: Probe, vanity: string -> VanityReply): (r: Result<SteamIds>)
    ensures !StartsWith(Lower(Trim(steamProfileUrl)), "http") ==> r == Err(InvalidUrl)
    ensures r.Ok? ==> r.value.steamId64 != [] && Convert64To32(r.value.steamId64) == Ok(r.value.steamId32)
    ensures r.Ok? ==> probe == Reachable
  {
    var url := Trim(steamProfileUrl);
    if !StartsWith(Lower(url), "http") then Err(InvalidUrl)
    else match probe
      case NotOk => Err(NotAccessible)
      case FetchThrew(m) => Err(m)
      case Reachable =>
        var lowerUrl := Lower(url);
        match ProfilesMatch(lowerUrl)
        case Some(steam64) => IdsFor(steam64)
        case None =>
          match VanityMatch(lowerUrl)
          case None => Err(Unsupported)
          case Some(name) =>
            match ResolveVanity(vanity(name))
            case Err(m) => Err(m)
            case Ok(steamId) =>
              if steamId.None? || steamId.value == "" then Err(NoSteamId)
              else IdsFor(steamId.value)
  }

  /** A reachable link naming a numeric profile gives that maximal digit run as
      the 64-bit id, whatever the vanity pattern or the Steam API would say. */
  lemma NumericProfileWins(steamProfileUrl: string, vanity: string -> VanityReply, digits: string)
    requires StartsWith(Lower(Trim(steamProfileUrl)), "http")
    requires ProfilesMatch(Lower(Trim(steamProfileUrl))) == Some(digits)
    ensures GetSteamIds(steamProfileUrl, Reachable, vanity).Ok?
    ensures GetSteamIds(steamProfileUrl, Reachable, vanity).value.steamId64 == digits
    ensures AllDigits(digits) && digits != []
  {
    ConvertRoundTrip(digits);
  }

  /** A link with neither pattern fails with the unsupported-format message,
      and a vanity link is resolved through the name after `/id/`. */
  lemma PatternOrder(steamProfileUrl: string, vanity: string -> VanityReply)
    requires StartsWith(Lower(Trim(steamProfileUrl)), "http")
    ensures var lowerUrl := Lower(Trim(steamProfileUrl));
      var r := GetSteamIds(steamProfileUrl, Reachable, vanity);
      && (ProfilesMatch(lowerUrl).None? && VanityMatch(lowerUrl).None? ==> r == Err(Unsupported))
      && (ProfilesMatch(lowerUrl).None? && VanityMatch(lowerUrl).Some? ==>
            var reply := vanity(VanityMatch(lowerUrl).value);
            (!reply.ok || reply.success != Some(1) ==> r == Err(VanityFailed))
            && (reply.ok && reply.success == Some(1) && reply.steamId.Some? && reply.steamId.value != "" ==>
                  r == IdsFor(reply.steamId.value)))
  {
  }

  /** A vanity name that resolves to text `BigInt` cannot read makes the whole
      lookup fail with the conversion's error. */
  lemma VanityNonNumeric(steamProfileUrl: string, vanity: string -> VanityReply, name: string, id: string)
    requires StartsWith(Lower(Trim(steamProfileUrl)), "http")
    requires ProfilesMatch(Lower(Trim(steamProfileUrl))).None?
    requires VanityMatch(Lower(Trim(steamProfileUrl))) == Some(name)
    requires vanity(name) == VanityReply(true, Some(1), Some(id)) && Unreadable(id)
    ensures GetSteamIds(steamProfileUrl, Reachable, vanity) == Err("Cannot convert " + id + " to a BigInt")
  {
    UnreadableIsNotANumber(id);
    assert ResolveVanity(vanity(name)) == Ok(Some(id));
    assert IdsFor(id) == Err("Cannot convert " + id + " to a BigInt");
  }

  /** Text with no white space at its ends whose first character is neither a
      digit nor a sign: what `BigInt` refuses. */
  predicate Unreadable(text: string) {
    text != [] && !IsJsSpace(text[0]) && !IsJsSpace(text[|text| - 1])
    && !IsDigit(text[0]) && text[0] != '-' && text[0] != '+'
  }

  lemma UnreadableIsNotANumber(text: string)
    requires Unreadable(text)
    ensures Convert64To32(text) == Err("Cannot convert " + text + " to a BigInt")
  {
    assert TrimStart(text) == text;
    assert TrimEnd(text) == text;
    assert !AllDigits(text) by { assert !IsDigit(text[0]); }
  }

  // ---------------------------------------------------------------------------
  // fetchSteamUserSummary and fetchSteamBans

  /** An HTTP reply: its status, status text and the list in its body, absent
      when the body has no such list. */
  datatype Reply<T> = Reply(ok: bool, statusText: string, players: Option<seq<T>>)

  /** A player of the summary reply; Steam leaves `loccountrycode` out for
      profiles that name no country, and `country_code` is then undefined. */
  datatype PlayerSummary = PlayerSummary(personaName: string, avatarFull: string, locCountryCode: Option<string>)

  datatype SteamSummary = SteamSummary(steamName: string, avatarUrl: string, countryCode: Option<string>)

  datatype BanRecord = BanRecord(steamId: string, vacBanned: bool, numberOfVacBans: int, numberOfGameBans: int)

  /** The first player of a reply's list, if the list is present and non-empty. */
  function FirstPlayer<T>(players: Option<seq<T>>): (r: Option<T>)
    ensures r.None? <==> players.None? || players.value == []
    ensures r.Some? ==> r.value == players.value[0]
  {
    if players.None? || players.value == [] then None else Some(players.value[0])
  }

  function FetchSteamUserSummary(reply: Reply<PlayerSummary>): (r: Result<Option<SteamSummary>>)
    ensures !reply.ok <==> r.Err?
    ensures r.Err? ==> r.message == "Failed to fetch player summary: " + reply.statusText
    ensures r.Ok? && r.value.None? <==> reply.ok && FirstPlayer(reply.players).None?
    ensures r.Ok? && r.value.Some? ==>
      var p := reply.players.value[0];
      r.value.value == SteamSummary(p.personaName, p.avatarFull, p.locCountryCode)
  {
    if !reply.ok then Err("Failed to fetch player summary: " + reply.statusText)
    else match FirstPlayer(reply.players)
      case None => Ok(None)
      case Some(p) => Ok(Some(SteamSummary(p.personaName, p.avatarFull, p.locCountryCode)))
  }

  function FetchSteamBans(reply: Reply<BanRecord>): (r: Result<Option<BanRecord>>)
    ensures !reply.ok <==> r.Err?
    ensures r.Err? ==> r.message == "Failed to fetch player bans: " + reply.statusText
    ensures r.Ok? ==> r.value == FirstPlayer(reply.players)
  {
    if !reply.ok then Err("Failed to fetch player bans: " + reply.statusText)
    else Ok(FirstPlayer(reply.players))
  }
}
