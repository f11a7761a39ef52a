/**
 * Finding the PM2.5 column of a parsed table (`load_data`): trimmed headers,
 * an exact case-insensitive alias match in list order, then a substring
 * heuristic, then a single numeric column, then the generic names "value"
 * and "measurement"; and coercing the chosen column to numbers.
 */
module Pm25Column {
  import opened Base
  import opened CsvReader

  // ---------------------------------------------------------------------
  // Trimming and lower-casing header names

  /** The characters Python's `str.strip()` removes. */
  predicate IsSpace(c: char)
  {
    || c == ' ' || c == '\t' || c == '\n' || c == '\r' || c == '\U{B}' || c == '\U{C}'
    || ('\U{1C}' <= c <= '\U{1F}') || c == '\U{85}' || c == '\U{A0}' || c == '\U{1680}'
    || ('\U{2000}' <= c <= '\U{200A}') || c == '\U{2028}' || c == '\U{2029}'
    || c == '\U{202F}' || c == '\U{205F}' || c == '\U{3000}'
  }

  predicate AllSpace(s: string)
  {
    forall i :: 0 <= i < |s| ==> IsSpace(s[i])
  }

  /** Length of the whitespace at the front of `s`. */
  function Leading(s: string): (k: nat)
    ensures k <= |s| && AllSpace(s[..k])
    ensures k == |s| || !IsSpace(s[k])
  {
    if s == [] || !IsSpace(s[0]) then 0
    else
      var k := 1 + Leading(s[1..]);
      assert forall i :: 1 <= i < k ==> s[..k][i] == s[1..][..k - 1][i - 1];
      k
  }

  /** Length of the whitespace at the back of `s`. */
  function Trailing(s: string): (k: nat)
    ensures k <= |s| && AllSpace(s[|s| - k..])
    ensures k == |s| || !IsSpace(s[|s| - k - 1])
  {
    if s == [] || !IsSpace(s[|s| - 1]) then 0
    else
      var k := 1 + Trailing(s[..|s| - 1]);
      assert s[|s| - k..] == s[..|s| - 1][|s| - k..] + [s[|s| - 1]];
      k
  }

  /** `r` is `s` with whitespace removed from both ends and nothing else. */
  predicate TrimmedFrom(s: string, r: string)
  {
    exists a: nat :: a + |r| <= |s| && s[a..a + |r|] == r && AllSpace(s[..a]) && AllSpace(s[a + |r|..])
  }

  /** Dropping `a` leading and `b` trailing space characters trims `s`. */
  lemma TrimmedBySlice(s: string, a: nat, b: nat)
    requires a + b <= |s| && AllSpace(s[..a]) && AllSpace(s[a..][|s| - a - b..])
    ensures TrimmedFrom(s, s[a..|s| - b])
  {
    var r := s[a..|s| - b];
    assert s[a..a + |r|] == r;
    assert s[a + |r|..] == s[a..][|s| - a - b..];
  }

  /** Neither the first nor the last character is whitespace. */
  predicate Stripped(r: string)
  {
    r == [] || (!IsSpace(r[0]) && !IsSpace(r[|r| - 1]))
  }

  /** Cutting just before a non-space character and just after one leaves a stripped piece. */
  lemma SliceStripped(s: string, a: nat, b: nat)
    requires a + b <= |s|
    requires a == |s| || !IsSpace(s[a])
    requires a + b == |s| || !IsSpace(s[|s| - b - 1])
    ensures Stripped(s[a..|s| - b])
  {
    var r := s[a..|s| - b];
    if r != [] {
      assert r[0] == s[a] && r[|r| - 1] == s[|s| - b - 1];
    }
  }

  /** `str.strip()`. */
  function Trim(s: string): (r: string)
    ensures TrimmedFrom(s, r)
    ensures Stripped(r)
  {
    var a := Leading(s);
    var b := Trailing(s[a..]);
    TrimmedBySlice(s, a, b);
    assert a + b < |s| ==> s[a..][|s| - a - b - 1] == s[|s| - b - 1];
    SliceStripped(s, a, b);
    s[a..|s| - b]
  }

  /** A trimmed name is trimmed already. */
  lemma TrimIdempotent(s: string)
    ensures Trim(Trim(s)) == Trim(s)
  {
    var r := Trim(s);
    if r != [] {
      assert Leading(r) == 0;
      assert r[0..] == r;
      assert Trailing(r[0..]) == 0;
      assert r[0..|r| - 0] == r;
    }
  }

  /** The front whitespace ends exactly where the first non-space character is. */
  lemma {:induction false} LeadingIs(s: string, a: nat)
    requires a <= |s| && AllSpace(s[..a]) && (a == |s| || !IsSpace(s[a]))
    ensures Leading(s) == a
    decreases |s|
  {
    if a > 0 {
      assert s[..a][0] == s[0];
    }
    if s != [] && IsSpace(s[0]) {
      var t := s[1..];
      assert s[..a][1..] == t[..a - 1];
      assert a < |s| ==> t[a - 1] == s[a];
      LeadingIs(t, a - 1);
    }
  }

  /** The back whitespace starts exactly after the last non-space character. */
  lemma {:induction false} TrailingIs(s: string, b: nat)
    requires b <= |s| && AllSpace(s[|s| - b..]) && (b == |s| || !IsSpace(s[|s| - b - 1]))
    ensures Trailing(s) == b
    decreases |s|
  {
    if b > 0 {
      assert s[|s| - b..][b - 1] == s[|s| - 1];
    }
    if s != [] && IsSpace(s[|s| - 1]) {
      var t := s[..|s| - 1];
      var u := t[|t| - (b - 1)..];
      forall i | 0 <= i < |u| ensures IsSpace(u[i]) {
        assert u[i] == s[|s| - b..][i];
      }
      assert b < |s| ==> t[|t| - b] == s[|s| - b - 1];
      TrailingIs(t, b - 1);
    }
  }

  /** A name made only of whitespace strips to nothing. */
  lemma TrimAllSpace(s: string)
    requires AllSpace(s)
    ensures Trim(s) == []
  {
    assert s[..|s|] == s;
    LeadingIs(s, |s|);
  }

  /** A piece at offset `a` between whitespace, with no whitespace at its ends, is the stripped name. */
  lemma TrimOfPiece(s: string, a: nat, r: string)
    requires a + |r| <= |s| && s[a..a + |r|] == r && AllSpace(s[..a]) && AllSpace(s[a + |r|..])
    requires r != [] && !IsSpace(r[0]) && !IsSpace(r[|r| - 1])
    ensures Trim(s) == r
  {
    assert s[a] == r[0];
    LeadingIs(s, a);
    var t := s[a..];
    assert t[|r| - 1] == r[|r| - 1];
    assert t[|r|..] == s[a + |r|..];
    TrailingIs(t, |t| - |r|);
  }

  /**
   * Stripping has one answer: any piece of `s` cut out between whitespace
   * that neither starts nor ends with whitespace is `Trim(s)`.
   */
  lemma TrimUnique(s: string, r: string)
    requires TrimmedFrom(s, r) && Stripped(r)
    ensures r == Trim(s)
  {
    var a: nat :| a + |r| <= |s| && s[a..a + |r|] == r && AllSpace(s[..a]) && AllSpace(s[a + |r|..]);
    if r == [] {
      assert s == s[..a] + s[a..];
      TrimAllSpace(s);
    } else {
      TrimOfPiece(s, a, r);
    }
  }

  /** ASCII lower case. */
  function LowerChar(c: char): (d: char)
    ensures !('A' <= d <= 'Z')
    ensures 'A' <= c <= 'Z' || d == c
  {
    if 'A' <= c <= 'Z' then (c as int + 32) as char else c
  }

  /** `str.lower()` on the letters A to Z. */
  function Lower(s: string): string
  {
    seq(|s|, i requires 0 <= i < |s| => LowerChar(s[i]))
  }

  /** Lower-casing twice changes nothing more. */
  lemma LowerIdempotent(s: string)
    ensures Lower(Lower(s)) == Lower(s)
  {
  }

  // ---------------------------------------------------------------------
  // The lower-case map and the alias list

  /** The known PM2.5 header names, in priority order. */
  const Candidates: seq<string> := [
    "pm25", "pm_25", "pm2_5", "pm2.5", "pm2_5(ug/m3)", "pm2.5(ug/m3)",
    "pm2_5_ug_m3", "pm25_ugm3", "pm2_5_ugm3", "pm_2_5", "pm25 (ug/m3)",
    "pm2.5_ugm3", "pm2_5_ug/m3"]

  /** A name without capitals is its own lower case. */
  lemma LowerKeepsLowerCase(s: string)
    requires forall i :: 0 <= i < |s| ==> !('A' <= s[i] <= 'Z')
    ensures Lower(s) == s
  {
  }

  /** The aliases are written in lower case, so lower-casing an alias gives the alias itself. */
  lemma CandidatesAreLowerCase()
    ensures forall j :: 0 <= j < |Candidates| ==> Lower(Candidates[j]) == Candidates[j]
  {
    forall j | 0 <= j < |Candidates| ensures Lower(Candidates[j]) == Candidates[j] {
      LowerKeepsLowerCase(Candidates[j]);
    }
  }

  /** `{col.lower(): col for col in df.columns}`, built left to right. */
  function ColMap(headers: seq<string>): map<string, string>
  {
    if headers == [] then map[]
    else
      var n := |headers| - 1;
      ColMap(headers[..n])[Lower(headers[n]) := headers[n]]
  }

  /** Every header's lower-case name is a key. */
  lemma {:induction false} ColMapKeys(headers: seq<string>, h: string)
    requires h in headers
    ensures Lower(h) in ColMap(headers)
    decreases |headers|
  {
    var n := |headers| - 1;
    if h != headers[n] {
      var i :| 0 <= i < |headers| && headers[i] == h;
      assert headers[..n][i] == h;
      ColMapKeys(headers[..n], h);
    }
  }

  /** Every key maps to a header whose lower-case name is that key. */
  lemma {:induction false} ColMapValues(headers: seq<string>, k: string)
    requires k in ColMap(headers)
    ensures ColMap(headers)[k] in headers && Lower(ColMap(headers)[k]) == k
    decreases |headers|
  {
    if headers != [] {
      var n := |headers| - 1;
      if k != Lower(headers[n]) {
        ColMapValues(headers[..n], k);
        var i :| 0 <= i < n && headers[..n][i] == ColMap(headers[..n])[k];
        assert headers[i] == ColMap(headers)[k];
      }
    }
  }

  /** No header after position `i` has the same lower-case name. */
  predicate LastOfItsName(headers: seq<string>, i: nat)
    requires i < |headers|
  {
    forall j :: i < j < |headers| ==> Lower(headers[j]) != Lower(headers[i])
  }

  /** When several headers share a lower-case name, the last of them is kept. */
  lemma {:induction false} ColMapLastWins(headers: seq<string>, i: nat)
    requires i < |headers| && LastOfItsName(headers, i)
    ensures Lower(headers[i]) in ColMap(headers) && ColMap(headers)[Lower(headers[i])] == headers[i]
    decreases |headers|
  {
    var n := |headers| - 1;
    if i < n {
      var prefix := headers[..n];
      assert prefix[i] == headers[i];
      assert LastOfItsName(prefix, i);
      ColMapLastWins(prefix, i);
    }
  }

  /** Position of the first candidate whose lower-case form is a key, or `|cands|`. */
  function FirstAlias(cands: seq<string>, m: map<string, string>): (k: nat)
    ensures k <= |cands|
    ensures k < |cands| ==> Lower(cands[k]) in m
    ensures forall j :: 0 <= j < k ==> Lower(cands[j]) !in m
  {
    if cands == [] then 0
    else if Lower(cands[0]) in m then 0
    else 1 + FirstAlias(cands[1..], m)
  }

  // ---------------------------------------------------------------------
  // The substring heuristic

  /** `s.startswith(t)`. */
  predicate StartsWith(s: string, t: string)
  {
    |t| <= |s| && s[..|t|] == t
  }

  /** `t in s` for strings. */
  predicate Contains(s: string, t: string)
  {
    exists i :: 0 <= i <= |s| && StartsWith(s[i..], t)
  }

  /** `s.replace(c, "")` for one character. */
  function Remove(s: string, c: char): (r: string)
    ensures c !in r && |r| <= |s|
    ensures forall x :: x in r <==> x in s && x != c
  {
    if s == [] then []
    else (if s[0] == c then [] else [s[0]]) + Remove(s[1..], c)
  }

  /** The heuristic test on one header. */
  predicate LooksLikePm25(header: string)
  {
    var lc := Lower(header);
    Contains(lc, "pm2") || Contains(lc, "pm 2") || Contains(lc, "pm2.5")
    || StartsWith(Remove(Remove(lc, '.'), '_'), "pm25")
  }

  /** The "pm2.5" test adds nothing to the "pm2" test. */
  lemma Pm25TestIsRedundant(header: string)
    ensures var lc := Lower(header);
      LooksLikePm25(header) <==>
        Contains(lc, "pm2") || Contains(lc, "pm 2") || StartsWith(Remove(Remove(lc, '.'), '_'), "pm25")
  {
    var lc := Lower(header);
    if Contains(lc, "pm2.5") {
      var i :| 0 <= i <= |lc| && StartsWith(lc[i..], "pm2.5");
      assert lc[i..][..3] == lc[i..][..5][..3];
      assert StartsWith(lc[i..], "pm2");
    }
  }

  /** Every character of a contained string occurs in the containing one. */
  lemma ContainsOnlyPresent(s: string, t: string, c: char)
    ensures Contains(s, t) && c in t ==> c in s
  {
    if Contains(s, t) && c in t {
      var i :| 0 <= i <= |s| && StartsWith(s[i..], t);
      var k :| 0 <= k < |t| && t[k] == c;
      assert s[i..][..|t|][k] == s[i + k];
    }
  }

  /** Every test of the heuristic needs the digit 2: a header without it is never taken. */
  lemma WithoutTwoNotPm25(header: string)
    requires '2' !in Lower(header)
    ensures !LooksLikePm25(header)
  {
    var lc := Lower(header);
    ContainsOnlyPresent(lc, "pm2", '2');
    ContainsOnlyPresent(lc, "pm 2", '2');
    ContainsOnlyPresent(lc, "pm2.5", '2');
    var r := Remove(Remove(lc, '.'), '_');
    assert StartsWith(r, "pm25") ==> r[0..] == r;
    ContainsOnlyPresent(r, "pm25", '2');
  }

  /** Position of the first header the heuristic accepts, or `|headers|`. */
  function FirstLookingLike(headers: seq<string>): (k: nat)
    ensures k <= |headers|
    ensures k < |headers| ==> LooksLikePm25(headers[k])
    ensures forall j :: 0 <= j < k ==> !LooksLikePm25(headers[j])
  {
    if headers == [] then 0
    else if LooksLikePm25(headers[0]) then 0
    else 1 + FirstLookingLike(headers[1..])
  }

  // ---------------------------------------------------------------------
  // Numeric columns and the resolution order

  /** The headers of the columns the dtype test calls numeric, in column order. */
  function NumericColumns(headers: seq<string>, isNumeric: nat -> bool): (r: seq<string>)
    ensures |r| <= |headers|
    ensures forall x :: x in r <==> exists i :: 0 <= i < |headers| && isNumeric(i) && headers[i] == x
  {
    if headers == [] then []
    else
      var n := |headers| - 1;
      var before := NumericColumns(headers[..n], isNumeric);
      assert forall i :: 0 <= i < n ==> headers[..n][i] == headers[i];
      before + (if isNumeric(n) then [headers[n]] else [])
  }

  datatype ColumnError = ColumnNotFound(available: seq<string>) // KeyError listing the columns

  /** No header is an alias, none looks like PM2.5, and none is "value" or "measurement". */
  predicate NoNamedMatch(aliases: seq<string>, headers: seq<string>)
  {
    && (forall j, h :: 0 <= j < |aliases| && h in headers ==> Lower(h) != Lower(aliases[j]))
    && (forall h :: h in headers ==> !LooksLikePm25(h) && Lower(h) != "value" && Lower(h) != "measurement")
  }

  /**
   * The resolution order of `load_data` on trimmed headers, for an alias
   * list in priority order (the script uses `Candidates`).
   */
  function SelectColumn(aliases: seq<string>, headers: seq<string>, isNumeric: nat -> bool): (r: Result<string, ColumnError>)
    ensures r.Ok? ==> r.value in headers
    ensures r.Err? ==> r.error == ColumnNotFound(headers)
  {
    var m := ColMap(headers);
    var a := FirstAlias(aliases, m);
    if a < |aliases| then
      ColMapValues(headers, Lower(aliases[a]));
      Ok(m[Lower(aliases[a])])
    else
      var s := FirstLookingLike(headers);
      if s < |headers| then Ok(headers[s])
      else
        var nums := NumericColumns(headers, isNumeric);
        if |nums| == 1 then
          assert nums[0] in nums;
          Ok(nums[0])
        else if "value" in m then
          ColMapValues(headers, "value");
          Ok(m["value"])
        else if "measurement" in m then
          ColMapValues(headers, "measurement");
          Ok(m["measurement"])
        else Err(ColumnNotFound(headers))
  }

  /** The KeyError is raised exactly when no rule applies. */
  lemma ColumnNotFoundExactly(aliases: seq<string>, headers: seq<string>, isNumeric: nat -> bool)
    ensures SelectColumn(aliases, headers, isNumeric).Err? <==>
              NoNamedMatch(aliases, headers) && |NumericColumns(headers, isNumeric)| != 1
  {
    var m := ColMap(headers);
    var a := FirstAlias(aliases, m);
    var s := FirstLookingLike(headers);
    if SelectColumn(aliases, headers, isNumeric).Err? {
      forall j, h | 0 <= j < |aliases| && h in headers ensures Lower(h) != Lower(aliases[j]) {
        ColMapKeys(headers, h);
      }
      forall h | h in headers ensures !LooksLikePm25(h) && Lower(h) != "value" && Lower(h) != "measurement" {
        ColMapKeys(headers, h);
      }
    } else if a < |aliases| {
      ColMapValues(headers, Lower(aliases[a]));
    } else if s < |headers| {
      assert headers[s] in headers;
    } else if "value" in m {
      ColMapValues(headers, "value");
    } else if "measurement" in m {
      ColMapValues(headers, "measurement");
    }
  }

  /**
   * An alias present among the headers, with no earlier alias present,
   * decides the column: the last header of that lower-case name.
   */
  lemma AliasMatchWins(aliases: seq<string>, headers: seq<string>, isNumeric: nat -> bool, i: nat, k: nat)
    requires i < |aliases| && k < |headers| && Lower(headers[k]) == Lower(aliases[i])
    requires LastOfItsName(headers, k)
    requires forall j, n :: 0 <= j < i && 0 <= n < |headers| ==> Lower(headers[n]) != Lower(aliases[j])
    ensures SelectColumn(aliases, headers, isNumeric) == Ok(headers[k])
  {
    var m := ColMap(headers);
    var a := FirstAlias(aliases, m);
    ColMapLastWins(headers, k);
    assert a <= i;
    ColMapValues(headers, Lower(aliases[a]));
    var n :| 0 <= n < |headers| && headers[n] == m[Lower(aliases[a])];
  }

  /** An alias no header matches is no key of the map, so the alias search runs off the end. */
  lemma NoAliasKey(aliases: seq<string>, headers: seq<string>)
    requires forall j, h :: 0 <= j < |aliases| && h in headers ==> Lower(h) != Lower(aliases[j])
    ensures FirstAlias(aliases, ColMap(headers)) == |aliases|
  {
    var m := ColMap(headers);
    forall j | 0 <= j < |aliases| ensures Lower(aliases[j]) !in m {
      if Lower(aliases[j]) in m {
        ColMapValues(headers, Lower(aliases[j]));
      }
    }
    FirstAliasNone(aliases, m);
  }

  /** Without an alias match, the substring rule picks the first header it accepts. */
  lemma SubstringPicksFirstHeader(aliases: seq<string>, headers: seq<string>, isNumeric: nat -> bool, k: nat)
    requires forall j, h :: 0 <= j < |aliases| && h in headers ==> Lower(h) != Lower(aliases[j])
    requires k < |headers| && LooksLikePm25(headers[k])
    requires forall j :: 0 <= j < k ==> !LooksLikePm25(headers[j])
    ensures SelectColumn(aliases, headers, isNumeric) == Ok(headers[k])
  {
    NoAliasKey(aliases, headers);
    FirstLookingLikeIsFirst(headers, k);
  }

  /** With no named match, a lone numeric column is taken. */
  lemma SingleNumericColumn(aliases: seq<string>, headers: seq<string>, isNumeric: nat -> bool, x: string)
    requires forall j, h :: 0 <= j < |aliases| && h in headers ==> Lower(h) != Lower(aliases[j])
    requires forall h :: h in headers ==> !LooksLikePm25(h)
    requires NumericColumns(headers, isNumeric) == [x]
    ensures SelectColumn(aliases, headers, isNumeric) == Ok(x)
  {
    NoAliasKey(aliases, headers);
    FirstLookingLikeNone(headers);
  }

  /**
   * With no alias, no substring match and not exactly one numeric column,
   * a header named "value" decides, and failing that one named
   * "measurement": in each case the last header of that lower-case name.
   */
  lemma ValueThenMeasurement(aliases: seq<string>, headers: seq<string>, isNumeric: nat -> bool)
    requires forall j, h :: 0 <= j < |aliases| && h in headers ==> Lower(h) != Lower(aliases[j])
    requires forall h :: h in headers ==> !LooksLikePm25(h)
    requires |NumericColumns(headers, isNumeric)| != 1
    ensures (exists h :: h in headers && Lower(h) == "value") ==>
              "value" in ColMap(headers) && SelectColumn(aliases, headers, isNumeric) == Ok(ColMap(headers)["value"])
    ensures (forall h :: h in headers ==> Lower(h) != "value") && (exists h :: h in headers && Lower(h) == "measurement") ==>
              "measurement" in ColMap(headers) && SelectColumn(aliases, headers, isNumeric) == Ok(ColMap(headers)["measurement"])
  {
    NoAliasKey(aliases, headers);
    FirstLookingLikeNone(headers);
    var m := ColMap(headers);
    if exists h :: h in headers && Lower(h) == "value" {
      var h :| h in headers && Lower(h) == "value";
      ColMapKeys(headers, h);
    } else {
      if "value" in m {
        ColMapValues(headers, "value");
      }
      if exists h :: h in headers && Lower(h) == "measurement" {
        var h :| h in headers && Lower(h) == "measurement";
        ColMapKeys(headers, h);
      }
    }
  }

  /** The alias loop: the first alias whose lower-case form is a key, or `|aliases|`. */
  method SearchAliases(aliases: seq<string>, m: map<string, string>) returns (k: nat)
    ensures k == FirstAlias(aliases, m)
  {
    k := 0;
    while k < |aliases|
      invariant 0 <= k <= |aliases|
      invariant forall j :: 0 <= j < k ==> Lower(aliases[j]) !in m
    {
      if Lower(aliases[k]) in m {
        FirstAliasIsFirst(aliases, m, k);
        return;
      }
      k := k + 1;
    }
    FirstAliasNone(aliases, m);
  }

  /** The header loop: the first header the heuristic accepts, or `|headers|`. */
  method SearchHeaders(headers: seq<string>) returns (k: nat)
    ensures k == FirstLookingLike(headers)
  {
    k := 0;
    while k < |headers|
      invariant 0 <= k <= |headers|
      invariant forall j :: 0 <= j < k ==> !LooksLikePm25(headers[j])
    {
      if LooksLikePm25(headers[k]) {
        FirstLookingLikeIsFirst(headers, k);
        return;
      }
      k := k + 1;
    }
    FirstLookingLikeNone(headers);
  }

  /** The column-finding code of `load_data`: the alias loop, the header loop, then the fallbacks. */
  method FindColumn(aliases: seq<string>, headers: seq<string>, isNumeric: nat -> bool) returns (r: Result<string, ColumnError>)
    ensures r == SelectColumn(aliases, headers, isNumeric)
  {
    var m := ColMap(headers);
    var a := SearchAliases(aliases, m);
    if a < |aliases| {
      return Ok(m[Lower(aliases[a])]);
    }
    var k := SearchHeaders(headers);
    if k < |headers| {
      return Ok(headers[k]);
    }
    var nums := NumericColumns(headers, isNumeric);
    if |nums| == 1 {
      return Ok(nums[0]);
    } else if "value" in m {
      return Ok(m["value"]);
    } else if "measurement" in m {
      return Ok(m["measurement"]);
    }
    return Err(ColumnNotFound(headers));
  }

  /** The alias search stops at the first candidate present. */
  lemma {:induction false} FirstAliasIsFirst(cands: seq<string>, m: map<string, string>, i: nat)
    requires i < |cands| && Lower(cands[i]) in m
    requires forall j :: 0 <= j < i ==> Lower(cands[j]) !in m
    ensures FirstAlias(cands, m) == i
    decreases i
  {
    if i > 0 {
      FirstAliasIsFirst(cands[1..], m, i - 1);
    }
  }

  /** With no candidate present the alias search runs off the end. */
  lemma {:induction false} FirstAliasNone(cands: seq<string>, m: map<string, string>)
    requires forall j :: 0 <= j < |cands| ==> Lower(cands[j]) !in m
    ensures FirstAlias(cands, m) == |cands|
    decreases |cands|
  {
    if cands != [] {
      FirstAliasNone(cands[1..], m);
    }
  }

  /** The substring search stops at the first header it accepts. */
  lemma {:induction false} FirstLookingLikeIsFirst(headers: seq<string>, i: nat)
    requires i < |headers| && LooksLikePm25(headers[i])
    requires forall j :: 0 <= j < i ==> !LooksLikePm25(headers[j])
    ensures FirstLookingLike(headers) == i
    decreases i
  {
    if i > 0 {
      FirstLookingLikeIsFirst(headers[1..], i - 1);
    }
  }

  /** With no header accepted the substring search runs off the end. */
  lemma {:induction false} FirstLookingLikeNone(headers: seq<string>)
    requires forall j :: 0 <= j < |headers| ==> !LooksLikePm25(headers[j])
    ensures FirstLookingLike(headers) == |headers|
    decreases |headers|
  {
    if headers != [] {
      FirstLookingLikeNone(headers[1..]);
    }
  }

  // ---------------------------------------------------------------------
  // Coercion

  /** Each name of `trimmed` is the stripped form of the name at the same place in `names`. */
  lemma TrimEach(names: seq<string>, trimmed: seq<string>)
    requires |trimmed| == |names|
    requires forall i :: 0 <= i < |names| ==> trimmed[i] == Trim(names[i])
    ensures forall i :: 0 <= i < |names| ==> TrimmedFrom(names[i], trimmed[i]) && Stripped(trimmed[i])
  {
    forall i | 0 <= i < |names| ensures TrimmedFrom(names[i], trimmed[i]) && Stripped(trimmed[i]) {
      assert trimmed[i] == Trim(names[i]);
    }
  }

  /** Header names trimmed, as the script renames the columns. */
  function TrimHeaders(t: Table): (r: Table)
    ensures |r.header| == |t.header| && r.rows == t.rows
    ensures forall i :: 0 <= i < |t.header| ==> TrimmedFrom(t.header[i], r.header[i])
    ensures forall i :: 0 <= i < |r.header| ==> Stripped(r.header[i])
  {
    var header := seq(|t.header|, i requires 0 <= i < |t.header| => Trim(t.header[i]));
    TrimEach(t.header, header);
    Table(header, t.rows)
  }

  /** Position of the first column named `name`. */
  function IndexOf(header: seq<string>, name: string): (k: nat)
    requires name in header
    ensures k < |header| && header[k] == name
    ensures forall j :: 0 <= j < k ==> header[j] != name
  {
    if header[0] == name then 0 else 1 + IndexOf(header[1..], name)
  }

  /** The cells of column `k`; a row too short for it gives a missing value. */
  function Column(rows: seq<seq<string>>, k: nat): (cells: seq<Option<string>>)
    ensures |cells| == |rows|
    ensures forall i :: 0 <= i < |rows| ==> (cells[i].Some? <==> k < |rows[i]|)
    ensures forall i :: 0 <= i < |rows| && k < |rows[i]| ==> cells[i].value == rows[i][k]
  {
    seq(|rows|, i requires 0 <= i < |rows| => if k < |rows[i]| then Some(rows[i][k]) else None)
  }

  /** `pd.to_numeric(..., errors="coerce").dropna()`: the values that parse, in order. */
  function NumericValues(cells: seq<Option<string>>, parse: string -> Option<real>): (r: seq<real>)
    ensures |r| <= |cells|
  {
    if cells == [] then []
    else
      var c := cells[|cells| - 1];
      NumericValues(cells[..|cells| - 1], parse)
        + (if c.Some? && parse(c.value).Some? then [parse(c.value).value] else [])
  }

  /** Coercion works cell by cell: it distributes over concatenation. */
  lemma {:induction false} NumericValuesAppend(a: seq<Option<string>>, b: seq<Option<string>>, parse: string -> Option<real>)
    ensures NumericValues(a + b, parse) == NumericValues(a, parse) + NumericValues(b, parse)
    decreases |b|
  {
    if b == [] {
      assert a + b == a;
    } else {
      assert (a + b)[..|a + b| - 1] == a + b[..|b| - 1];
      NumericValuesAppend(a, b[..|b| - 1], parse);
    }
  }

  /** A cell that parses */
  predicate Parses(c: Option<string>, parse: string -> Option<real>)
  {
    c.Some? && parse(c.value).Some?
  }

  /** Every value comes from a cell that parses, and every such cell gives its value. */
  lemma {:induction false} NumericValuesDrops(cells: seq<Option<string>>, parse: string -> Option<real>)
    ensures forall x :: x in NumericValues(cells, parse) <==>
              exists i :: 0 <= i < |cells| && Parses(cells[i], parse) && parse(cells[i].value).value == x
    decreases |cells|
  {
    if cells != [] {
      var n := |cells| - 1;
      var prefix := cells[..n];
      NumericValuesDrops(prefix, parse);
      forall x | x in NumericValues(cells, parse)
        ensures exists i :: 0 <= i < |cells| && Parses(cells[i], parse) && parse(cells[i].value).value == x
      {
        if x !in NumericValues(prefix, parse) {
          assert Parses(cells[n], parse) && parse(cells[n].value).value == x;
        } else {
          var i :| 0 <= i < n && Parses(prefix[i], parse) && parse(prefix[i].value).value == x;
          assert cells[i] == prefix[i];
        }
      }
      forall x | exists i :: 0 <= i < |cells| && Parses(cells[i], parse) && parse(cells[i].value).value == x
        ensures x in NumericValues(cells, parse)
      {
        var i :| 0 <= i < |cells| && Parses(cells[i], parse) && parse(cells[i].value).value == x;
        if i < n {
          assert prefix[i] == cells[i];
        }
      }
    }
  }

  /** No cell of the column parses as a number. */
  predicate NoCellParses(cells: seq<Option<string>>, parse: string -> Option<real>)
  {
    forall i :: 0 <= i < |cells| ==> !Parses(cells[i], parse)
  }

  /** Nothing is left exactly when no cell parses. */
  lemma {:induction false} NumericValuesNone(cells: seq<Option<string>>, parse: string -> Option<real>)
    ensures NumericValues(cells, parse) == [] <==> NoCellParses(cells, parse)
    decreases |cells|
  {
    if cells != [] {
      var n := |cells| - 1;
      NumericValuesNone(cells[..n], parse);
      assert forall i :: 0 <= i < n ==> cells[..n][i] == cells[i];
    }
  }

  /** Nothing is dropped exactly when every cell parses. */
  lemma {:induction false} NumericValuesAll(cells: seq<Option<string>>, parse: string -> Option<real>)
    ensures |NumericValues(cells, parse)| == |cells| <==> forall i :: 0 <= i < |cells| ==> Parses(cells[i], parse)
    decreases |cells|
  {
    if cells != [] {
      var n := |cells| - 1;
      NumericValuesAll(cells[..n], parse);
      assert forall i :: 0 <= i < n ==> cells[..n][i] == cells[i];
      assert |NumericValues(cells[..n], parse)| <= n;
    }
  }

  datatype CoerceError = NoNumericValues(column: string) // ValueError naming the column

  /** The coerced column, or the error for a column without a single number. */
  function Coerce(t: Table, name: string, parse: string -> Option<real>): (r: Result<seq<real>, CoerceError>)
    requires name in t.header
    ensures r.Ok? ==> |r.value| > 0
    ensures r.Err? ==> r == Err(NoNumericValues(name))
    ensures r == Err(NoNumericValues(name)) <==> NoCellParses(Column(t.rows, IndexOf(t.header, name)), parse)
    ensures r.Ok? ==> r.value == NumericValues(Column(t.rows, IndexOf(t.header, name)), parse)
  {
    var cells := Column(t.rows, IndexOf(t.header, name));
    NumericValuesNone(cells, parse);
    var values := NumericValues(cells, parse);
    if values == [] then Err(NoNumericValues(name)) else Ok(values)
  }
}
