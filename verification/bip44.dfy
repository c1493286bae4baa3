/** BIP44 HD paths: the `BIP44HDPath` record, its validation, and the parser
    for textual paths `m/44'/<coin>'/<account>'/<change>/<index>`. */
module Bip44 {

  import opened Wrappers
  import opened Json
  import opened Errors

  /** `BIP44HDPath`: three JavaScript numbers. */
  datatype HDPath = HDPath(account: Number, change: Number, addressIndex: Number)

  /** The result of `parseBIP44Path`. */
  datatype ParsedPath = ParsedPath(coinType: Number, path: HDPath)

  /** `{account: 0, change: 0, addressIndex: 0}`, the default the migration carries forward. */
  const DefaultPath := HDPath(Integral(0), Integral(0), Integral(0))

  predicate IsNonNegativeInteger(n: Number) {
    n.Integral? && n.value >= 0
  }

  predicate IsChange(n: Number) {
    n == Integral(0) || n == Integral(1)
  }

  /** `validateBIP44Path`: checks account, then change, then address index. */
  function ValidateBIP44Path(p: HDPath): (r: Result<(), Error>)
    ensures r.Ok? <==> IsNonNegativeInteger(p.account) && IsChange(p.change) && IsNonNegativeInteger(p.addressIndex)
    ensures r == Err(InvalidAccount) <==> !IsNonNegativeInteger(p.account)
    ensures r == Err(InvalidChange) <==> IsNonNegativeInteger(p.account) && !IsChange(p.change)
    ensures r == Err(InvalidAddressIndex) <==>
      IsNonNegativeInteger(p.account) && IsChange(p.change) && !IsNonNegativeInteger(p.addressIndex)
  {
    if !p.account.Integral? || p.account.value < 0 then Err(InvalidAccount)
    else if !p.change.Integral? || !(p.change.value == 0 || p.change.value == 1) then Err(InvalidChange)
    else if !p.addressIndex.Integral? || p.addressIndex.value < 0 then Err(InvalidAddressIndex)
    else Ok(())
  }

  // ---------------------------------------------------------------------------
  // Decimal digits

  /** `\d`: an ASCII digit (the pattern has no Unicode flag). */
  predicate IsDigit(c: char) {
    '0' <= c <= '9'
  }

  predicate AllDigits(s: string) {
    forall i :: 0 <= i < |s| ==> IsDigit(s[i])
  }

  /** The length of the longest run of digits at the front of `s`. */
  function DigitRun(s: string): (n: nat)
    ensures n <= |s|
    ensures forall i :: 0 <= i < n ==> IsDigit(s[i])
    ensures n < |s| ==> !IsDigit(s[n])
  {
    if |s| == 0 || !IsDigit(s[0]) then 0 else 1 + DigitRun(s[1..])
  }

  /** The unary `+` applied to a string of digits. */
  function DecimalValue(d: string): nat
    requires AllDigits(d)
  {
    if |d| == 0 then 0 else DecimalValue(d[..|d| - 1]) * 10 + (d[|d| - 1] as int - '0' as int)
  }

  /** The decimal numeral of `n`, without leading zeros. */
  function Decimal(n: nat): (d: string)
    ensures |d| > 0 && AllDigits(d)
    ensures DecimalValue(d) == n
  {
    var last := ('0' as int + n % 10) as char;
    if n < 10 then [last]
    else
      var init := Decimal(n / 10);
      assert (init + [last])[..|init|] == init;
      init + [last]
  }

  // ---------------------------------------------------------------------------
  // The pattern /^m\/44'\/(\d+)'\/(\d+)'\/(\d+)\/(\d+)$/i

  /** One or more digits followed by the literal `sep`: the digits and the text after `sep`.
      `sep` starts with a non-digit, so the greedy digit run is the only way to match. */
  function Capture(s: string, sep: string): (r: Option<(string, string)>)
    ensures r.Some? ==> IsNumeral(r.value.0) && s == r.value.0 + (sep + r.value.1)
  {
    var n := DigitRun(s);
    if n > 0 && n + |sep| <= |s| && s[n..n + |sep|] == sep then
      assert s == s[..n] + (s[n..n + |sep|] + s[n + |sep|..]);
      Some((s[..n], s[n + |sep|..]))
    else None
  }

  /** The text `m/44'/` (or `M/44'/`) in front of the groups. */
  function Head(lead: char): string {
    [lead] + "/44'/"
  }

  /** The text after the head: `<g0>'/<g1>'/<g2>/<g3>`. */
  function Tail(g: seq<string>): string
    requires |g| == 4
  {
    g[0] + ("'/" + (g[1] + ("'/" + (g[2] + ("/" + g[3])))))
  }

  /** The text the pattern describes, for a leading `m`/`M` and four digit groups. */
  function Render(lead: char, g: seq<string>): string
    requires |g| == 4
  {
    Head(lead) + Tail(g)
  }

  /** The four capture groups of the text after the head. */
  function MatchTail(t: string): (r: Option<seq<string>>)
    ensures r.Some? ==> IsGroups(r.value) && t == Tail(r.value)
  {
    match Capture(t, "'/")
    case None => None
    case Some(c1) =>
      match Capture(c1.1, "'/")
      case None => None
      case Some(c2) =>
        match Capture(c2.1, "/")
        case None => None
        case Some(c3) =>
          if IsNumeral(c3.1) then
            var g := [c1.0, c2.0, c3.0, c3.1];
            TailOf(g, t, c1.1, c2.1);
            Some(g)
          else None
  }

  /** A tail assembled from its groups and separators, one capture at a time. */
  lemma TailOf(g: seq<string>, t: string, t2: string, t3: string)
    requires |g| == 4
    requires t == g[0] + ("'/" + t2) && t2 == g[1] + ("'/" + t3) && t3 == g[2] + ("/" + g[3])
    ensures t == Tail(g)
  {
  }

  /** The four capture groups, or `None` when the pattern does not match.
      The `i` flag only matters for the leading `m`. */
  function MatchPath(s: string): (r: Option<seq<string>>)
  {
    if |s| < 6 || !(s[0] == 'm' || s[0] == 'M') || s[1..6] != "/44'/" then None
    else MatchTail(s[6..])
  }

  /** Four non-empty digit strings. */
  predicate IsGroups(g: seq<string>) {
    |g| == 4 && IsNumeral(g[0]) && IsNumeral(g[1]) && IsNumeral(g[2]) && IsNumeral(g[3])
  }

  /** `\d+`: one or more digits. */
  predicate IsNumeral(d: string) {
    |d| > 0 && AllDigits(d)
  }

  /** The least integer that a double rounds to infinity: 2^1024 - 2^970, halfway
      between the largest finite double and 2^1024. */
  const DoubleOverflow: nat := 0xFFFFFFFFFFFFFC00000000000000000000000000000000000000000000000000000000000000000000000000000000000000000000000000000000000000000000000000000000000000000000000000000000000000000000000000000000000000000000000000000000000000000000000000000000000000000000000000

  /** The unary `+` of a digit string with value `n`: a finite double is an integer,
      and a value past the largest double becomes `Infinity`, which is not one. */
  function NumberValue(n: nat): (r: Number)
    ensures r.Integral? <==> n < DoubleOverflow
    ensures r.Integral? ==> r.value == n
    ensures !r.Integral? ==> r == NonIntegral
  {
    if n < DoubleOverflow then Integral(n) else NonIntegral
  }

  /** The numbers `+metches[1..4]`. */
  function FromGroups(g: seq<string>): ParsedPath
    requires IsGroups(g)
  {
    ParsedPath(
      NumberValue(DecimalValue(g[0])),
      HDPath(NumberValue(DecimalValue(g[1])), NumberValue(DecimalValue(g[2])), NumberValue(DecimalValue(g[3]))))
  }

  /** `parseBIP44Path`. */
  function ParseBIP44Path(s: string): (r: Result<ParsedPath, Error>)
    ensures r.Err? <==> MatchPath(s).None?
    ensures r.Err? ==> r.error == InvalidHdPath
  {
    match MatchPath(s)
    case None => Err(InvalidHdPath)
    case Some(g) => Ok(FromGroups(g))
  }

  /** Everything the pattern accepts has the shape it describes. */
  lemma MatchSound(s: string)
    requires MatchPath(s).Some?
    ensures IsGroups(MatchPath(s).value)
    ensures (s[0] == 'm' || s[0] == 'M') && s == Render(s[0], MatchPath(s).value)
  {
    HeadOf(s);
  }

  /** A string that starts like the pattern splits into its head and the rest. */
  lemma HeadOf(s: string)
    requires |s| >= 6 && s[1..6] == "/44'/"
    ensures s == Head(s[0]) + s[6..]
  {
    assert s[..6] == Head(s[0]);
    assert s == s[..6] + s[6..];
  }

  /** A digit run stops at a non-digit. */
  lemma {:induction false} DigitRunOf(d: string, rest: string)
    requires AllDigits(d)
    requires |rest| == 0 || !IsDigit(rest[0])
    ensures DigitRun(d + rest) == |d|
  {
    if |d| > 0 {
      assert (d + rest)[1..] == d[1..] + rest;
      DigitRunOf(d[1..], rest);
    }
  }

  lemma CaptureOf(d: string, sep: string, rest: string)
    requires IsNumeral(d)
    requires |sep| > 0 && !IsDigit(sep[0])
    ensures Capture(d + (sep + rest), sep) == Some((d, rest))
  {
    var s := d + (sep + rest);
    DigitRunOf(d, sep + rest);
    assert s[..|d|] == d;
    assert s[|d|..|d| + |sep|] == sep;
    assert s[|d| + |sep|..] == rest;
  }

  /** The groups of a well-formed tail are found again. */
  lemma MatchTailComplete(g: seq<string>)
    requires IsGroups(g)
    ensures MatchTail(Tail(g)) == Some(g)
  {
    var t3 := g[2] + ("/" + g[3]);
    var t2 := g[1] + ("'/" + t3);
    assert Tail(g) == g[0] + ("'/" + t2);
    CaptureOf(g[0], "'/", t2);
    CaptureOf(g[1], "'/", t3);
    CaptureOf(g[2], "/", g[3]);
    MatchTailOf(Tail(g), g[0], g[1], g[2], g[3], t2, t3);
    SeqOfFour(g);
  }

  lemma SeqOfFour(g: seq<string>)
    requires |g| == 4
    ensures g == [g[0], g[1], g[2], g[3]]
  {
  }

  /** `MatchTail` once the three captures are known. */
  lemma MatchTailOf(t: string, a: string, b: string, c: string, d: string, t2: string, t3: string)
    requires IsNumeral(d)
    requires Capture(t, "'/") == Some((a, t2))
    requires Capture(t2, "'/") == Some((b, t3))
    requires Capture(t3, "/") == Some((c, d))
    ensures MatchTail(t) == Some([a, b, c, d])
  {
  }

  /** Everything of the described shape is accepted, with the groups as written. */
  lemma MatchComplete(lead: char, g: seq<string>)
    requires lead == 'm' || lead == 'M'
    requires IsGroups(g)
    ensures MatchPath(Render(lead, g)) == Some(g)
  {
    var h := Head(lead);
    var s := h + Tail(g);
    assert |h| == 6;
    assert s[..6] == h;
    assert s[1..6] == h[1..6] == "/44'/";
    assert s[6..] == Tail(g);
    MatchTailComplete(g);
  }

  /** `parseBIP44Path` accepts exactly the renderings of four digit groups with a
      leading `m` or `M`, and returns the numbers written in them. */
  lemma ParseAcceptsExactly(s: string)
    ensures ParseBIP44Path(s).Ok? <==>
      |s| > 0 && (s[0] == 'm' || s[0] == 'M') && exists g :: IsGroups(g) && s == Render(s[0], g)
    ensures ParseBIP44Path(s).Ok? ==>
      IsGroups(MatchPath(s).value) && s == Render(s[0], MatchPath(s).value) &&
      ParseBIP44Path(s).value == FromGroups(MatchPath(s).value)
  {
    if |s| > 0 && (s[0] == 'm' || s[0] == 'M') && exists g :: IsGroups(g) && s == Render(s[0], g) {
      var g :| IsGroups(g) && s == Render(s[0], g);
      ParseRendered(s[0], g);
    }
    if MatchPath(s).Some? {
      MatchSound(s);
    }
  }

  /** Any rendering of four digit groups parses back to their decimal values. */
  lemma ParseRendered(lead: char, g: seq<string>)
    requires lead == 'm' || lead == 'M'
    requires IsGroups(g)
    ensures ParseBIP44Path(Render(lead, g)) == Ok(FromGroups(g))
  {
    MatchComplete(lead, g);
  }

  /** The canonical text of a path. */
  function FormatBIP44Path(coinType: nat, account: nat, change: nat, addressIndex: nat): string {
    Render('m', [Decimal(coinType), Decimal(account), Decimal(change), Decimal(addressIndex)])
  }

  /** Parsing the canonical text gives back the numbers, as doubles. */
  lemma ParseFormat(coinType: nat, account: nat, change: nat, addressIndex: nat)
    ensures ParseBIP44Path(FormatBIP44Path(coinType, account, change, addressIndex))
         == Ok(ParsedPath(NumberValue(coinType), HDPath(NumberValue(account), NumberValue(change), NumberValue(addressIndex))))
  {
    var g := [Decimal(coinType), Decimal(account), Decimal(change), Decimal(addressIndex)];
    assert IsGroups(g);
    ParseRendered('m', g);
  }

  // ---------------------------------------------------------------------------
  // Keystone key paths: parse, then validate, for every key

  /** The error the check of one keystone key path throws, if any. */
  function KeyPathError(path: string): (r: Option<Error>)
  {
    match ParseBIP44Path(path)
    case Err(e) => Some(e)
    case Ok(parsed) =>
      match ValidateBIP44Path(parsed.path)
      case Err(e) => Some(e)
      case Ok(_) => None
  }

  /** A `forEach` whose body may throw: the first error thrown, if any. */
  function FirstError<T>(xs: seq<T>, check: T -> Option<Error>): (r: Result<(), Error>)
    ensures r.Ok? <==> forall i :: 0 <= i < |xs| ==> check(xs[i]).None?
    ensures r.Err? ==> exists i :: 0 <= i < |xs| && check(xs[i]) == Some(r.error) &&
                                   forall j :: 0 <= j < i ==> check(xs[j]).None?
  {
    if |xs| == 0 then Ok(())
    else
      match check(xs[0])
      case Some(e) => Err(e)
      case None =>
        var rest := FirstError(xs[1..], check);
        if rest.Err? then
          ghost var i :| 0 <= i < |xs[1..]| && check(xs[1..][i]) == Some(rest.error) &&
                         forall j :: 0 <= j < i ==> check(xs[1..][j]).None?;
          assert check(xs[i + 1]) == Some(rest.error);
          rest
        else
          assert forall i :: 1 <= i < |xs| ==> xs[i] == xs[1..][i - 1];
          rest
  }

  /** The keystone key paths check: every key's path must parse and validate. */
  function CheckKeyPaths(paths: seq<string>): (r: Result<(), Error>)
    ensures r.Ok? <==> forall i :: 0 <= i < |paths| ==> KeyPathError(paths[i]).None?
    ensures r.Err? ==> exists i :: 0 <= i < |paths| && KeyPathError(paths[i]) == Some(r.error)
  {
    FirstError(paths, KeyPathError)
  }

  /** A path the parser accepts is still rejected when its change is not 0 or 1
      (or, first, when its account is too large for a double). */
  lemma ParsedChangeOutOfRange(g: seq<string>)
    requires IsGroups(g) && DecimalValue(g[2]) > 1
    ensures ParseBIP44Path(Render('m', g)).Ok?
    ensures KeyPathError(Render('m', g)) ==
              Some(if DecimalValue(g[1]) < DoubleOverflow then InvalidChange else InvalidAccount)
  {
    ParseRendered('m', g);
    ParsedPathError(Render('m', g), FromGroups(g));
  }

  /** A path whose account has more digits than a double can hold parses, yet its check
      throws "Invalid account": `+` turned the account into `Infinity`. */
  lemma OverflowingAccountRejected(g: seq<string>)
    requires IsGroups(g) && DecimalValue(g[1]) >= DoubleOverflow
    ensures ParseBIP44Path(Render('m', g)).Ok?
    ensures ParseBIP44Path(Render('m', g)).value.path.account == NonIntegral
    ensures KeyPathError(Render('m', g)) == Some(InvalidAccount)
  {
    ParseRendered('m', g);
    ParsedPathError(Render('m', g), FromGroups(g));
  }

  /** The check of a path that parses reports what the validation of its numbers reports. */
  lemma ParsedPathError(s: string, parsed: ParsedPath)
    requires ParseBIP44Path(s) == Ok(parsed)
    ensures KeyPathError(s) == (if ValidateBIP44Path(parsed.path).Err? then Some(ValidateBIP44Path(parsed.path).error) else None)
  {
  }
}
