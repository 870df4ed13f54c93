/** The token lifetime read from configuration (auth.module.ts): a duration
    such as `90s`, `15m`, `2h` or `1d` turned into seconds. */
module AuthModule {
  import opened Common
  import opened JsText

  predicate IsUnit(c: char) {
    c == 's' || c == 'm' || c == 'h' || c == 'd'
  }

  /** Seconds per unit. */
  function UnitSeconds(u: char): (k: nat)
    requires IsUnit(u)
    ensures k > 0
  {
    match u
    case 's' => 1
    case 'm' => 60
    case 'h' => 3600
    case 'd' => 86400
  }

  /** The regular expression `^(\d+)([smhd])$`: one or more ASCII digits,
      then one unit letter, and nothing before or after. */
  predicate MatchesDuration(value: string) {
    |value| >= 2 && AllDigits(value[..|value| - 1]) && IsUnit(value[|value| - 1])
  }

  /** The regular expression as a concatenation: a non-empty digit run
      followed by a unit letter. */
  lemma MatchesDurationShape(value: string)
    ensures MatchesDuration(value) <==>
              exists digits: string, unit: char :: |digits| >= 1 && AllDigits(digits) && IsUnit(unit) &&
                value == digits + [unit]
  {
    if MatchesDuration(value) {
      var digits, unit := value[..|value| - 1], value[|value| - 1];
      assert value == digits + [unit];
    }
  }

  /** The units agree with each other: a minute is 60 seconds, an hour 60
      minutes and a day 24 hours. */
  lemma UnitSecondsConsistent()
    ensures UnitSeconds('s') == 1
    ensures UnitSeconds('m') == 60 * UnitSeconds('s')
    ensures UnitSeconds('h') == 60 * UnitSeconds('m')
    ensures UnitSeconds('d') == 24 * UnitSeconds('h')
    ensures UnitSeconds('d') == DefaultSeconds
  {
  }

  /** The fallback: one day. */
  const DefaultSeconds: nat := 86400

  /** parseExpiry. */
  function ParseExpiry(value: string): (seconds: int)
    ensures seconds >= 0
    ensures !MatchesDuration(value) ==> seconds == DefaultSeconds
  {
    if !MatchesDuration(value) then DefaultSeconds
    else
      var digits := value[..|value| - 1];
      var unit := value[|value| - 1];
      ParseIntOfAllDigits(digits);
      var num: nat := ParseInt(digits).value;
      match unit
      case 's' => num
      case 'm' => num * 60
      case 'h' => num * 3600
      case 'd' => num * 86400
  }

  /** The lifetime passed to the JWT module: `JWT_EXPIRES_IN`, or '1d' when unset. */
  function ExpiresIn(configured: Option<string>): (seconds: int)
    ensures configured == None ==> seconds == DefaultSeconds
    ensures seconds >= 0
  {
    DefaultDurationIsOneDay();
    ParseExpiry(configured.GetOr("1d"))
  }

  /** The default configuration value '1d' is one day. */
  lemma DefaultDurationIsOneDay()
    ensures ParseExpiry("1d") == DefaultSeconds
  {
    assert "1" + ['d'] == "1d";
    assert DigitsValue("1") == 1 by {
      assert "1"[..0] == [];
    }
    ParseExpiryMatched("1", 'd');
  }

  /** Any digit string followed by a unit reads as its value times the unit. */
  lemma {:induction false} ParseExpiryMatched(digits: string, unit: char)
    requires |digits| >= 1 && AllDigits(digits) && IsUnit(unit)
    ensures ParseExpiry(digits + [unit]) == DigitsValue(digits) * UnitSeconds(unit)
  {
    var v := digits + [unit];
    assert v[..|v| - 1] == digits;
    assert v[|v| - 1] == unit;
    ParseIntOfDigits(digits, []);
    assert digits + [] == digits;
  }

  /** Rendering N and a unit, then parsing, gives N seconds per unit. */
  lemma ParseExpiryShow(n: nat, unit: char)
    requires IsUnit(unit)
    ensures ParseExpiry(Show(n) + [unit]) == n * UnitSeconds(unit)
  {
    ParseExpiryMatched(Show(n), unit);
    DigitsValueShow(n);
  }

  /** No unit, an unknown unit, a sign, text after the unit and the empty
      string all fall back to one day. */
  lemma ParseExpiryFallbacks()
    ensures ParseExpiry("") == DefaultSeconds
    ensures ParseExpiry("15") == DefaultSeconds
    ensures ParseExpiry("2w") == DefaultSeconds
    ensures ParseExpiry("-5m") == DefaultSeconds
    ensures ParseExpiry("1dx") == DefaultSeconds
    ensures ParseExpiry("h") == DefaultSeconds
  {
    assert !IsUnit('5') && !IsUnit('w') && !IsUnit('x');
    assert !IsDigit("-5m"[0]);
  }
}
