/** The horsepower extractor: first the `horse_power` field, then a scan of
    the `model_name` text for a two-digit number followed by an `HP` mark. */
module HpExtract {
  import opened Values
  import opened Normalizers

  // ---------------------------------------------------------------------
  // Strategy 1: the first run of digits in a text `horse_power` field
  // ---------------------------------------------------------------------

  /** The maximal run of digits at the start of `s`. */
  function LeadingDigits(s: string): (d: string)
    ensures |d| <= |s| && d == s[..|d|] && AllDigits(d)
    ensures |d| == |s| || !IsDigit(s[|d|])
  {
    if s != [] && IsDigit(s[0]) then [s[0]] + LeadingDigits(s[1..]) else []
  }

  /** `re.search(r'(\d+)', s)`: the first maximal run of digits, if any. */
  function FirstDigitRun(s: string): (r: Option<string>)
    ensures r.Some? ==> r.value != [] && AllDigits(r.value)
    ensures r.None? <==> NoDigits(s)
  {
    if s == [] then None
    else if IsDigit(s[0]) then Some(LeadingDigits(s))
    else
      assert forall k :: 0 < k < |s| ==> s[k] == s[1..][k - 1];
      FirstDigitRun(s[1..])
  }

  /** The first run of digits is the one that starts after a digit-free
      prefix and extends as far as the digits do. */
  lemma {:induction false} FirstDigitRunLocated(s: string, i: nat, j: nat)
    requires i < j <= |s|
    requires NoDigits(s[..i]) && AllDigits(s[i..j])
    requires j == |s| || !IsDigit(s[j])
    ensures FirstDigitRun(s) == Some(s[i..j])
  {
    if i == 0 {
      assert IsDigit(s[0]) by { assert s[0] == s[i..j][0]; }
      assert s[i..j] == s[..j];
    } else {
      assert !IsDigit(s[0]) by { assert s[0] == s[..i][0]; }
      var t := s[1..];
      assert t[..i - 1] == s[1..i];
      assert t[i - 1..j - 1] == s[i..j];
      FirstDigitRunLocated(t, i - 1, j - 1);
    }
  }

  /** What strategy 1 hands to the validator: a text field is replaced by the
      integer its first run of digits spells, when it has one. */
  function DirectCandidate(raw: Value): (c: Value)
    ensures !raw.Text? ==> c == raw
    ensures raw.Text? && NoDigits(raw.s) ==> c == raw
    ensures raw.Text? && !NoDigits(raw.s) ==> c.Int? && c.i >= 0
  {
    match raw
    case Text(s) =>
      (match FirstDigitRun(s)
       case Some(run) => Int(DecimalValue(run))
       case None => raw)
    case _ => raw
  }

  // ---------------------------------------------------------------------
  // Strategy 2: the pattern (\d{2})\s*(?:HP|H\.P\.|hp|Hp), ignoring case
  // ---------------------------------------------------------------------

  /** `\s` on ASCII: space, tab to carriage return, and the four separators
      0x1C..0x1F. */
  predicate IsSpace(c: char) {
    c == ' ' || '\t' <= c <= '\r' || '\U{1C}' <= c <= '\U{1F}'
  }

  predicate IsH(c: char) {
    c == 'H' || c == 'h'
  }

  predicate IsP(c: char) {
    c == 'P' || c == 'p'
  }

  /** The end of the (greedy) whitespace run that starts at `i`. */
  function SkipSpace(s: string, i: nat): (j: nat)
    requires i <= |s|
    ensures i <= j <= |s|
    ensures forall k :: i <= k < j ==> IsSpace(s[k])
    ensures j == |s| || !IsSpace(s[j])
    decreases |s| - i
  {
    if i < |s| && IsSpace(s[i]) then SkipSpace(s, i + 1) else i
  }

  /** The end of a unit mark `HP` or `H.P.`, each letter in either case,
      that starts at `q`. */
  function UnitEnd(s: string, q: nat): (r: Option<nat>)
    ensures r.Some? ==> q + 2 <= r.value <= |s| && IsH(s[q])
    ensures r.Some? ==> forall k :: q <= k < r.value ==> !IsDigit(s[k])
  {
    if q + 2 <= |s| && IsH(s[q]) && IsP(s[q + 1]) then Some(q + 2)
    else if q + 4 <= |s| && IsH(s[q]) && s[q + 1] == '.' && IsP(s[q + 2]) && s[q + 3] == '.' then Some(q + 4)
    else None
  }

  /** The end of a match of the pattern that starts at `p`, if one does.
      Backing off the greedy whitespace run cannot help: the character it
      gives back is a blank, not an `H`. */
  function MatchEnd(s: string, p: nat): (r: Option<nat>)
    ensures r.Some? ==> p + 4 <= r.value <= |s| && IsDigit(s[p]) && IsDigit(s[p + 1])
    ensures r.Some? ==> forall k :: p + 2 <= k < r.value ==> !IsDigit(s[k])
  {
    if p + 2 <= |s| && IsDigit(s[p]) && IsDigit(s[p + 1]) then UnitEnd(s, SkipSpace(s, p + 2))
    else None
  }

  /** A unit mark `HP` or `H.P.`, each letter in either case, at `q`. */
  predicate UnitAt(s: string, q: nat) {
    || (q + 2 <= |s| && IsH(s[q]) && IsP(s[q + 1]))
    || (q + 4 <= |s| && IsH(s[q]) && s[q + 1] == '.' && IsP(s[q + 2]) && s[q + 3] == '.')
  }

  /** The pattern occurs at `p`: two digits, then some whitespace (possibly
      none), then a unit mark. */
  predicate PatternAt(s: string, p: nat) {
    && p + 2 <= |s| && IsDigit(s[p]) && IsDigit(s[p + 1])
    && exists j :: p + 2 <= j <= |s| && (forall k :: p + 2 <= k < j ==> IsSpace(s[k])) && UnitAt(s, j)
  }

  /** The greedy matcher finds a match at `p` exactly when the pattern
      occurs there. */
  lemma MatchEndIsPattern(s: string, p: nat)
    ensures MatchEnd(s, p).Some? <==> PatternAt(s, p)
  {
    if p + 2 <= |s| && IsDigit(s[p]) && IsDigit(s[p + 1]) {
      var e := SkipSpace(s, p + 2);
      if MatchEnd(s, p).Some? {
        assert UnitAt(s, e);
      }
      if PatternAt(s, p) {
        var j :| p + 2 <= j <= |s| && (forall k :: p + 2 <= k < j ==> IsSpace(s[k])) && UnitAt(s, j);
        assert e == j;
      }
    }
  }

  /** The start positions of the matches `re.findall` reports from `i` on:
      the leftmost match, then the search resumes where that match ended. */
  function FindAll(s: string, i: nat): (ps: seq<nat>)
    ensures forall k :: 0 <= k < |ps| ==> i <= ps[k] < |s| && MatchEnd(s, ps[k]).Some?
    ensures forall k, l :: 0 <= k < l < |ps| ==> ps[k] < ps[l]
    decreases |s| - i
  {
    if i >= |s| then []
    else
      match MatchEnd(s, i)
      case Some(e) => [i] + FindAll(s, e)
      case None => FindAll(s, i + 1)
  }

  /** The captured two digits of the match at `p`. */
  function Group(s: string, p: nat): (g: string)
    requires MatchEnd(s, p).Some?
    ensures |g| == 2 && AllDigits(g)
  {
    s[p..p + 2]
  }

  /** The loop over the matches: the first captured group the validator
      accepts, converted to an integer. */
  function FirstValid(s: string, ps: seq<nat>): (r: Option<int>)
    requires forall k :: 0 <= k < |ps| ==> MatchEnd(s, ps[k]).Some?
    ensures r.Some? ==> 15 <= r.value <= 100
  {
    if ps == [] then None
    else
      var m := Text(Group(s, ps[0]));
      if SanityCheckHp(m).Some? then Some(PyInt(m).value) else FirstValid(s, ps[1..])
  }

  /** A position where the pattern matches and whose two digits pass the
      validator. */
  predicate ValidMatchAt(s: string, p: nat) {
    MatchEnd(s, p).Some? && SanityCheckHp(Text(Group(s, p))).Some?
  }

  /** Strategy 2 on a non-empty model name: the matches in order, the first
      one that validates. */
  function ModelNameHp(s: string): (r: Option<int>)
    ensures r.Some? ==> 15 <= r.value <= 100
  {
    FirstValid(s, FindAll(s, 0))
  }

  /** Strategy 2 of `smart_extract_hp`: only a non-empty text `model_name`
      is scanned. */
  function Fallback(modelStr: Value): (r: Option<int>)
    ensures !(modelStr.Text? && modelStr.s != []) ==> r == None
    ensures r.Some? ==> 15 <= r.value <= 100
  {
    if Truthy(modelStr) && modelStr.Text? then ModelNameHp(modelStr.s) else None
  }

  /** `smart_extract_hp`: strategy 1, and strategy 2 only when it fails. */
  function SmartExtractHp(data: map<string, Value>): (r: Option<int>)
    ensures r.Some? ==> 15 <= r.value <= 100
  {
    var rawHp := DirectCandidate(Get(data, "horse_power"));
    if SanityCheckHp(rawHp).Some? then Some(PyInt(rawHp).value)
    else Fallback(GetOr(data, "model_name", Text("")))
  }

  // ---------------------------------------------------------------------
  // Properties of the scan
  // ---------------------------------------------------------------------

  /** Matches cannot overlap: the third character of a match is a blank or
      an `H`, never a digit, so no match starts inside another one. */
  lemma NoMatchInsideMatch(s: string, p: nat, q: nat)
    requires MatchEnd(s, p).Some? && p < q < MatchEnd(s, p).value
    ensures MatchEnd(s, q).None?
  {
    if q == p + 1 {
      assert !IsDigit(s[p + 2]);
    } else {
      assert !IsDigit(s[q]);
    }
  }

  /** `findall` from `i` reports exactly the positions from `i` on where the
      pattern matches. */
  lemma {:induction false} FindAllReportsEveryMatch(s: string, i: nat, q: nat)
    requires i <= q < |s|
    ensures q in FindAll(s, i) <==> MatchEnd(s, q).Some?
    decreases |s| - i
  {
    match MatchEnd(s, i)
    case Some(e) =>
      var rest := FindAll(s, e);
      assert FindAll(s, i) == [i] + rest;
      if i < q {
        assert q in FindAll(s, i) <==> q in rest;
        if q < e {
          NoMatchInsideMatch(s, i, q);
          assert q !in rest;
        } else {
          FindAllReportsEveryMatch(s, e, q);
        }
      }
    case None =>
      assert FindAll(s, i) == FindAll(s, i + 1);
      if i < q {
        FindAllReportsEveryMatch(s, i + 1, q);
      } else {
        assert q !in FindAll(s, i + 1);
      }
  }

  /** One step of the loop over the matches, for each kind of position. */
  lemma ScanStepNoMatch(s: string, i: nat)
    requires i < |s| && MatchEnd(s, i).None?
    ensures FirstValid(s, FindAll(s, i)) == FirstValid(s, FindAll(s, i + 1))
  {
  }

  lemma ScanStepInvalid(s: string, i: nat)
    requires i < |s| && MatchEnd(s, i).Some? && !ValidMatchAt(s, i)
    ensures FirstValid(s, FindAll(s, i)) == FirstValid(s, FindAll(s, MatchEnd(s, i).value))
  {
    var rest := FindAll(s, MatchEnd(s, i).value);
    assert FindAll(s, i) == [i] + rest;
    assert ([i] + rest)[1..] == rest;
  }

  lemma ScanStepValid(s: string, i: nat)
    requires i < |s| && ValidMatchAt(s, i)
    ensures FirstValid(s, FindAll(s, i)) == SanityCheckHp(Text(Group(s, i)))
  {
    assert FindAll(s, i) == [i] + FindAll(s, MatchEnd(s, i).value);
  }

  /** A match ends no later than the start of any later match. */
  lemma NextMatchNotPast(s: string, i: nat, p: nat)
    requires i < p && MatchEnd(s, i).Some? && MatchEnd(s, p).Some?
    ensures MatchEnd(s, i).value <= p
  {
    if p < MatchEnd(s, i).value {
      NoMatchInsideMatch(s, i, p);
    }
  }

  /** Scanning from `i` finds the earliest valid match at or after `i`. */
  lemma {:induction false} ScanFindsEarliest(s: string, i: nat, p: nat)
    requires i <= p && ValidMatchAt(s, p)
    requires forall q :: i <= q < p ==> !ValidMatchAt(s, q)
    ensures FirstValid(s, FindAll(s, i)) == SanityCheckHp(Text(Group(s, p)))
    decreases p - i
  {
    var e := MatchEnd(s, i);
    if i == p {
      ScanStepValid(s, i);
    } else if e.None? {
      ScanStepNoMatch(s, i);
      ScanFindsEarliest(s, i + 1, p);
    } else {
      NextMatchNotPast(s, i, p);
      ScanStepInvalid(s, i);
      ScanFindsEarliest(s, e.value, p);
    }
  }

  /** Scanning from `i` finds nothing when no valid match starts at or after `i`. */
  lemma {:induction false} ScanFindsNothing(s: string, i: nat)
    requires forall q :: i <= q < |s| ==> !ValidMatchAt(s, q)
    ensures FirstValid(s, FindAll(s, i)) == None
    decreases |s| - i
  {
    if i < |s| {
      match MatchEnd(s, i)
      case Some(e) =>
        ScanStepInvalid(s, i);
        ScanFindsNothing(s, e);
      case None =>
        ScanStepNoMatch(s, i);
        ScanFindsNothing(s, i + 1);
    }
  }

  /** Some position in `i..p` is the first valid one, when `p` is valid. */
  lemma {:induction false} EarliestValid(s: string, i: nat, p: nat) returns (q: nat)
    requires i <= p && ValidMatchAt(s, p)
    ensures i <= q <= p && ValidMatchAt(s, q)
    ensures forall r :: i <= r < q ==> !ValidMatchAt(s, r)
    decreases p - i
  {
    if ValidMatchAt(s, i) {
      q := i;
    } else {
      q := EarliestValid(s, i + 1, p);
    }
  }

  /** A valid match at `p` makes the scan from any `i <= p` succeed. */
  lemma ScanFindsSome(s: string, i: nat, p: nat)
    requires i <= p && ValidMatchAt(s, p)
    ensures FirstValid(s, FindAll(s, i)).Some?
  {
    var q := EarliestValid(s, i, p);
    ScanFindsEarliest(s, i, q);
  }

  /** A valid position is one where the pattern occurs and its two digits
      spell a number in 15..100. */
  lemma ValidMatchAtMeans(s: string, p: nat)
    ensures ValidMatchAt(s, p) <==>
      PatternAt(s, p) && 15 <= 10 * DigitValue(s[p]) + DigitValue(s[p + 1]) <= 100
    ensures MatchEnd(s, p).Some? ==>
      DecimalValue(Group(s, p)) == 10 * DigitValue(s[p]) + DigitValue(s[p + 1])
  {
    MatchEndIsPattern(s, p);
    if MatchEnd(s, p).Some? {
      var g := Group(s, p);
      assert g[..1][..0] == [] && g[..1] == [s[p]] && g[1] == s[p + 1];
      assert DecimalValue(g) == 10 * DigitValue(s[p]) + DigitValue(s[p + 1]);
    }
  }

  /** Strategy 2 returns the value at the earliest position whose match
      validates. */
  lemma ModelNameHpEarliest(s: string, p: nat)
    requires ValidMatchAt(s, p)
    requires forall q :: 0 <= q < p ==> !ValidMatchAt(s, q)
    ensures ModelNameHp(s) == Some(DecimalValue(Group(s, p)))
  {
    ScanFindsEarliest(s, 0, p);
  }

  /** Strategy 2 returns nothing exactly when no position validates. */
  lemma ModelNameHpNone(s: string)
    ensures ModelNameHp(s) == None <==> forall q :: 0 <= q < |s| ==> !ValidMatchAt(s, q)
  {
    if forall q :: 0 <= q < |s| ==> !ValidMatchAt(s, q) {
      ScanFindsNothing(s, 0);
    } else {
      var q :| 0 <= q < |s| && ValidMatchAt(s, q);
      ScanFindsSome(s, 0, q);
    }
  }

  // ---------------------------------------------------------------------
  // Properties of the two strategies together
  // ---------------------------------------------------------------------

  /** When the first run of digits of a text `horse_power` validates, it is
      the result, whatever `model_name` holds. */
  lemma DirectRunWins(data: map<string, Value>, s: string, run: string, modelName: Value)
    requires Get(data, "horse_power") == Text(s) && FirstDigitRun(s) == Some(run)
    requires 15 <= DecimalValue(run) <= 100
    ensures SmartExtractHp(data) == Some(DecimalValue(run))
    ensures SmartExtractHp(data["model_name" := modelName]) == Some(DecimalValue(run))
  {
    assert Get(data["model_name" := modelName], "horse_power") == Text(s);
  }

  /** Only the first run of digits of a text `horse_power` is ever looked
      at: the result is the same as if the field held that number alone. */
  lemma OnlyFirstRunTried(data: map<string, Value>, s: string, run: string)
    requires Get(data, "horse_power") == Text(s) && FirstDigitRun(s) == Some(run)
    ensures SmartExtractHp(data) == SmartExtractHp(data["horse_power" := Int(DecimalValue(run))])
  {
    var data' := data["horse_power" := Int(DecimalValue(run))];
    assert GetOr(data', "model_name", Text("")) == GetOr(data, "model_name", Text(""));
  }

  /** A text `horse_power` without digits passes the decision to `model_name`. */
  lemma DigitlessFieldFallsBack(data: map<string, Value>, s: string)
    requires Get(data, "horse_power") == Text(s) && NoDigits(s)
    ensures SmartExtractHp(data) == Fallback(GetOr(data, "model_name", Text("")))
  {
    if s != [] {
      assert !IsDigit(s[0]);
    }
  }

  /** When what strategy 1 hands to the validator passes, that value is the
      result, whatever its shape. */
  lemma DirectResult(data: map<string, Value>)
    requires SanityCheckHp(DirectCandidate(Get(data, "horse_power"))).Some?
    ensures SmartExtractHp(data) == SanityCheckHp(DirectCandidate(Get(data, "horse_power")))
  {
  }

  /** A result of strategy 2 is the value of the earliest valid match in
      `model_name`; a missing, empty or non-text `model_name` gives none. */
  lemma FallbackResult(data: map<string, Value>)
    requires SanityCheckHp(DirectCandidate(Get(data, "horse_power"))).None?
    ensures var m := GetOr(data, "model_name", Text(""));
      SmartExtractHp(data) == if m.Text? && m.s != [] then ModelNameHp(m.s) else None
  {
  }

  /** Examples: a unit after the number in `horse_power`, a `model_name`
      scan, and a three-digit number whose last two digits are read. */
  lemma ExtractExampleDirect()
    ensures SmartExtractHp(map["horse_power" := Text("75 HP engine")]) == Some(75)
  {
    var hp := "75 HP engine";
    assert hp[..0] == [] && hp[0..2] == "75";
    FirstDigitRunLocated(hp, 0, 2);
    assert "75"[..1] == "7" && "7"[..0] == [];
    assert DecimalValue("75") == 75;
    var data := map["horse_power" := Text(hp)];
    assert Get(data, "horse_power") == Text(hp);
    assert DirectCandidate(Get(data, "horse_power")) == Int(75);
  }

  lemma ExtractExampleModelName()
    ensures SmartExtractHp(map["horse_power" := Absent, "model_name" := Text("Model X 60HP Turbo")]) == Some(60)
  {
    var name := "Model X 60HP Turbo";
    var data := map["horse_power" := Absent, "model_name" := Text(name)];
    assert SmartExtractHp(data) == Some(60) by {
      ExampleNameScan(name);
      assert Get(data, "horse_power") == Absent;
      assert GetOr(data, "model_name", Text("")) == Text(name);
    }
  }

  lemma ExampleNameScan(name: string)
    requires name == "Model X 60HP Turbo"
    ensures ModelNameHp(name) == Some(60)
  {
    assert ValidMatchAt(name, 8) && DecimalValue(Group(name, 8)) == 60 by {
      assert name[8] == '6' && name[9] == '0' && name[10] == 'H' && name[11] == 'P';
      assert SkipSpace(name, 10) == 10;
      assert MatchEnd(name, 8) == Some(12);
      assert Group(name, 8) == "60" && "60"[..1] == "6" && "6"[..0] == [];
    }
    forall q | 0 <= q < 8 ensures !ValidMatchAt(name, q) {
      assert !IsDigit(name[q]);
    }
    ModelNameHpEarliest(name, 8);
  }

  lemma ExtractExampleThreeDigits()
    ensures ModelNameHp("120HP") == Some(20)
  {
    var three := "120HP";
    assert MatchEnd(three, 0).None? by { assert three[2] == '0'; }
    assert MatchEnd(three, 1) == Some(5);
    assert Group(three, 1) == "20" && "20"[..1] == "2";
    ModelNameHpEarliest(three, 1);
  }

  lemma ExtractExampleNone()
    ensures SmartExtractHp(map["model_name" := Text("Model X")]) == None
  {
    var plain := "Model X";
    forall q | 0 <= q < |plain| ensures !ValidMatchAt(plain, q) {
      assert !IsDigit(plain[q]);
    }
    ModelNameHpNone(plain);
  }
}
