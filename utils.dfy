/**
 * The string and record helpers of the front end: plural words, readable
 * error codes, initials, one-line addresses, chart colours and the chart
 * configuration built from a list of data items.
 */
module Utils {
  import opened Wrappers
  import opened Text

  /** `pluralize(count, word)`: the word itself for exactly one, otherwise with an `s`. */
  function Pluralize(count: int, word: string): (r: string)
    ensures r == word <==> count == 1
    ensures StartsWith(r, word) && |r| <= |word| + 1
    ensures count != 1 ==> r[|word|..] == "s"
  {
    if count == 1 then word else word + "s"
  }

  // ---------------------------------------------------------------------------
  // formatErrorMessage

  /** `.map((word) => word.charAt(0).toUpperCase() + word.slice(1))`. */
  function CapitalizeAll(words: seq<string>): (r: seq<string>)
    ensures |r| == |words|
  {
    seq(|words|, k requires 0 <= k < |words| => Capitalize(words[k]))
  }

  /** `formatErrorMessage(errorCode)`: `split('_')`, capitalise each piece, `join(' ')`. */
  function FormatErrorMessage(code: string): string {
    Join(CapitalizeAll(Split(code, '_')), " ")
  }

  /**
   * The same text described character by character: every `_` becomes a
   * space, a character at the start of the code or right after a `_` is
   * upper-cased, and every other character is kept.
   */
  function WordCased(code: string): (r: string)
    ensures |r| == |code|
  {
    seq(|code|, k requires 0 <= k < |code| =>
      if code[k] == '_' then ' '
      else if k == 0 || code[k - 1] == '_' then UpperChar(code[k])
      else code[k])
  }

  /** `formatErrorMessage` agrees with the character-by-character description. */
  lemma {:induction false} FormatErrorMessageIsWordCased(code: string)
    ensures FormatErrorMessage(code) == WordCased(code)
    decreases |code|
  {
    if '_' !in code {
      assert CapitalizeAll([code]) == [Capitalize(code)];
      WordCasedPlain(code);
    } else {
      var i := IndexOf(code, '_');
      var head, t := code[..i], code[i + 1..];
      assert code == head + "_" + t;
      FormatErrorMessageAtFirst(head, t);
      FormatErrorMessageIsWordCased(t);
      WordCasedAfterFirst(head, t);
    }
  }

  /** The first `_` ends the first capitalised word; the rest is formatted afresh. */
  lemma FormatErrorMessageAtFirst(head: string, t: string)
    requires '_' !in head
    ensures FormatErrorMessage(head + "_" + t) == Capitalize(head) + " " + FormatErrorMessage(t)
  {
    var pieces := Split(t, '_');
    var caps := CapitalizeAll(pieces);
    calc {
      FormatErrorMessage(head + "_" + t);
      Join(CapitalizeAll(Split(head + "_" + t, '_')), " ");
      { SplitAfterFirst(head, t, '_'); }
      Join(CapitalizeAll([head] + pieces), " ");
      { CapitalizeAllCons(head, pieces); }
      Join([Capitalize(head)] + caps, " ");
      { JoinCons(Capitalize(head), caps, " "); }
      Capitalize(head) + " " + Join(caps, " ");
    }
  }

  lemma CapitalizeAllCons(w: string, ws: seq<string>)
    ensures CapitalizeAll([w] + ws) == [Capitalize(w)] + CapitalizeAll(ws)
  {
    var l, r := CapitalizeAll([w] + ws), [Capitalize(w)] + CapitalizeAll(ws);
    forall k | 0 <= k < |l| ensures l[k] == r[k] {
      if k > 0 {
        assert ([w] + ws)[k] == ws[k - 1];
      }
    }
  }

  /** Without `_` only the first character changes. */
  lemma WordCasedPlain(code: string)
    requires '_' !in code
    ensures WordCased(code) == Capitalize(code)
  {
    var r := Capitalize(code);
    forall k | 0 <= k < |code| ensures r[k] == WordCased(code)[k] {
      assert code[k] != '_';
      if k > 0 {
        assert code[k - 1] != '_';
      }
    }
  }

  /** The first `_` ends the first word and starts the description of the rest afresh. */
  lemma WordCasedAfterFirst(head: string, t: string)
    requires '_' !in head
    ensures WordCased(head + "_" + t) == Capitalize(head) + " " + WordCased(t)
  {
    var code := head + "_" + t;
    var i := |head|;
    var r := Capitalize(head) + " " + WordCased(t);
    WordCasedPlain(head);
    forall k | 0 <= k < |code| ensures r[k] == WordCased(code)[k] {
      if k < i {
        assert code[k] == head[k];
        assert WordCased(head)[k] == WordCased(code)[k] by {
          if k > 0 {
            assert code[k - 1] == head[k - 1];
          }
        }
      } else if k > i {
        assert code[k] == t[k - i - 1];
        if k > i + 1 {
          assert code[k - 1] == t[k - i - 2];
        }
      }
    }
  }

  /** No `_` survives, and the result is exactly as long as the code. */
  lemma FormatErrorMessageShape(code: string)
    ensures '_' !in FormatErrorMessage(code)
    ensures |FormatErrorMessage(code)| == |code|
    ensures forall k :: 0 <= k < |code| ==> (code[k] == '_' ==> FormatErrorMessage(code)[k] == ' ')
  {
    FormatErrorMessageIsWordCased(code);
    var r := WordCased(code);
    forall k | 0 <= k < |r| ensures r[k] != '_' {
      if code[k] != '_' {
        assert UpperChar(code[k]) != '_';
      }
    }
  }

  /**
   * For a code without spaces the words of the message, split on spaces, are
   * the capitalised pieces of the code: one more than the number of `_`.
   */
  lemma FormatErrorMessageWords(code: string)
    requires ' ' !in code
    ensures Split(FormatErrorMessage(code), ' ') == CapitalizeAll(Split(code, '_'))
    ensures |Split(FormatErrorMessage(code), ' ')| == Count(code, '_') + 1
  {
    var pieces := Split(code, '_');
    var caps := CapitalizeAll(pieces);
    forall k | 0 <= k < |caps| ensures ' ' !in caps[k] {
      PieceWithoutSpace(code, pieces, k);
    }
    SplitJoin(caps, ' ');
    SplitCount(code, '_');
  }

  /** A piece of a split of a space-free code keeps no space after capitalising. */
  lemma PieceWithoutSpace(code: string, pieces: seq<string>, k: nat)
    requires ' ' !in code && pieces == Split(code, '_') && k < |pieces|
    ensures ' ' !in Capitalize(pieces[k])
  {
    JoinSplit(code, '_');
    PieceInJoin(pieces, "_", k);
    var w := pieces[k];
    forall m | 0 <= m < |w| ensures w[m] != ' ' {
      assert w[m] in code;
    }
    if |w| > 0 {
      assert UpperChar(w[0]) != ' ';
      assert Capitalize(w) == [UpperChar(w[0])] + w[1..];
    }
  }

  /** Every character of a joined piece is a character of the join. */
  lemma {:induction false} PieceInJoin(parts: seq<string>, sep: string, k: nat)
    requires k < |parts|
    ensures forall m :: 0 <= m < |parts[k]| ==> parts[k][m] in Join(parts, sep)
    decreases |parts|
  {
    if |parts| > 1 {
      if k > 0 {
        PieceInJoin(parts[1..], sep, k - 1);
        var rest := Join(parts[1..], sep);
        assert Join(parts, sep) == parts[0] + sep + rest;
        forall m | 0 <= m < |parts[k]| ensures parts[k][m] in Join(parts, sep) {
          assert parts[k][m] in rest;
        }
      } else {
        assert Join(parts, sep) == parts[0] + (sep + Join(parts[1..], sep));
      }
    }
  }

  // ---------------------------------------------------------------------------
  // getInitialLetter

  /** `text.charAt(0)`: the first character, or `""` for the empty string. */
  function InitialLetter(text: string): (r: string)
    ensures StartsWith(text, r)
    ensures |r| == if |text| == 0 then 0 else 1
  {
    if |text| == 0 then "" else [text[0]]
  }

  // ---------------------------------------------------------------------------
  // getAddress

  /** The location fields of a job; a missing field is the empty string. */
  datatype Place = Place(province: string, cityMuni: string, barangay: string)

  /** The non-empty strings of `parts`, in order. */
  function NonEmpty(parts: seq<string>): (r: seq<string>)
    ensures forall k :: 0 <= k < |r| ==> r[k] != ""
    decreases |parts|
  {
    if |parts| == 0 then []
    else (if parts[0] == "" then [] else [parts[0]]) + NonEmpty(parts[1..])
  }

  /**
   * What `getAddress` produces: the non-empty fields from the most specific
   * (barangay) to the least (province), separated by `", "`; when province is
   * empty, the separator written after the last earlier field stays at the end.
   */
  function AddressOf(p: Place): string {
    var parts := NonEmpty([p.barangay, p.cityMuni, p.province]);
    Join(parts, ", ") + (if p.province == "" && |parts| > 0 then ", " else "")
  }

  /** `getAddress(job)`, building the address by `+=`. */
  method GetAddress(job: Place) returns (address: string)
    ensures address == AddressOf(job)
  {
    address := "";
    if job.barangay != "" {
      address := address + job.barangay + ", ";
    }
    if job.cityMuni != "" {
      address := address + job.cityMuni + ", ";
    }
    if job.province != "" {
      address := address + job.province;
    }
    AddressPieces(job);
  }

  lemma NonEmptyOfThree(a: string, b: string, c: string)
    ensures NonEmpty([a, b, c])
         == (if a == "" then [] else [a]) + (if b == "" then [] else [b]) + (if c == "" then [] else [c])
  {
    assert [a, b, c][1..] == [b, c];
    assert [b, c][1..] == [c];
    assert [c][1..] == [];
    assert NonEmpty([c]) == (if c == "" then [] else [c]);
    assert NonEmpty([b, c]) == (if b == "" then [] else [b]) + NonEmpty([c]);
  }

  /** The joined form, written out as the three optional pieces. */
  lemma AddressPieces(p: Place)
    ensures AddressOf(p)
         == (if p.barangay != "" then p.barangay + ", " else "")
          + (if p.cityMuni != "" then p.cityMuni + ", " else "")
          + p.province
  {
    var b, c, v := p.barangay, p.cityMuni, p.province;
    var parts := NonEmpty([b, c, v]);
    NonEmptyOfThree(b, c, v);
    if b != "" && c != "" && v != "" {
      assert parts == [b, c, v];
      JoinSmall(b, c, v, ", ");
    } else if b != "" && c != "" {
      assert parts == [b, c];
      JoinSmall(b, c, v, ", ");
    } else if b != "" && v != "" {
      assert parts == [b, v];
      JoinSmall(b, v, c, ", ");
    } else if c != "" && v != "" {
      assert parts == [c, v];
      JoinSmall(c, v, b, ", ");
    } else if b != "" {
      assert parts == [b];
      JoinSmall(b, c, v, ", ");
    } else if c != "" {
      assert parts == [c];
      JoinSmall(c, b, v, ", ");
    } else if v != "" {
      assert parts == [v];
      JoinSmall(v, b, c, ", ");
    } else {
      assert parts == [];
    }
  }

  /**
   * The address is empty exactly when all three fields are; with a province it
   * is the fields joined by `", "` and ends with the province; without one but
   * with another field it ends with a dangling `", "`; a barangay comes first.
   */
  lemma AddressShape(p: Place)
    ensures AddressOf(p) == "" <==> p.province == "" && p.cityMuni == "" && p.barangay == ""
    ensures p.province != "" ==>
      AddressOf(p) == Join(NonEmpty([p.barangay, p.cityMuni, p.province]), ", ")
      && |AddressOf(p)| >= |p.province|
      && AddressOf(p)[|AddressOf(p)| - |p.province|..] == p.province
    ensures p.province == "" && (p.cityMuni != "" || p.barangay != "") ==>
      |AddressOf(p)| >= 2 && AddressOf(p)[|AddressOf(p)| - 2..] == ", "
    ensures p.barangay != "" ==> StartsWith(AddressOf(p), p.barangay + ", ")
  {
    AddressPieces(p);
    var s := AddressOf(p);
    var front := (if p.barangay != "" then p.barangay + ", " else "")
               + (if p.cityMuni != "" then p.cityMuni + ", " else "");
    assert s == front + p.province;
    assert s[|front|..] == p.province;
    if p.barangay != "" {
      assert s == (p.barangay + ", ") + ((if p.cityMuni != "" then p.cityMuni + ", " else "") + p.province);
    }
  }

  // ---------------------------------------------------------------------------
  // generateColor

  /** `a % m` for a non-negative dividend: `m` taken away until less than `m` is left. */
  function Mod(a: nat, m: nat): (r: nat)
    requires m >= 1
    ensures r < m
    decreases a
  {
    if a < m then a else Mod(a - m, m)
  }

  /** JavaScript's `%` by a positive divisor: the remainder takes the sign of the dividend. */
  function JsRem(a: int, m: nat): (r: int)
    requires m >= 1
    ensures a >= 0 ==> 0 <= r < m
    ensures a < 0 ==> -(m as int) < r <= 0
  {
    if a >= 0 then Mod(a, m) else -(Mod(-a, m) as int)
  }

  /** `Mod` is the remainder of Euclid's division: `a` is a whole number of `m`s plus `Mod(a, m)`. */
  lemma {:induction false} ModQuotient(a: nat, m: nat) returns (q: nat)
    requires m >= 1
    ensures a == q * m + Mod(a, m)
    decreases a
  {
    if a < m {
      q := 0;
    } else {
      var q' := ModQuotient(a - m, m);
      q := q' + 1;
      assert q * m == q' * m + m;
    }
  }

  /**
   * `JsRem` is the remainder of division truncated toward zero: the quotient
   * is `q` for a non-negative dividend and `-q` for a negative one.
   */
  lemma JsRemQuotient(a: int, m: nat) returns (q: nat)
    requires m >= 1
    ensures a >= 0 ==> a == q * m + JsRem(a, m)
    ensures a < 0 ==> a == -(q * m) + JsRem(a, m)
  {
    if a >= 0 {
      q := ModQuotient(a, m);
    } else {
      q := ModQuotient(-a, m);
    }
  }

  /** `(index % MAX_COLOR_VARIABLES) + 1`, with the maximum as a parameter. */
  function ColorNumber(index: int, maxColors: nat): int
    requires maxColors >= 1
  {
    JsRem(index, maxColors) + 1
  }

  /** `generateColor(index)`: `hsl(var(--chart-N))`. */
  function GenerateColor(index: int, maxColors: nat): string
    requires maxColors >= 1
  {
    "hsl(var(--chart-" + IntToString(ColorNumber(index, maxColors)) + "))"
  }

  /** The colour numbers of list positions are `1..maxColors`; a negative index would drop to `2 - maxColors..1`. */
  lemma ColorNumberRange(index: int, maxColors: nat)
    requires maxColors >= 1
    ensures index >= 0 ==> 1 <= ColorNumber(index, maxColors) <= maxColors
    ensures index < 0 ==> 2 - maxColors <= ColorNumber(index, maxColors) <= 1
  {
  }

  /** The first `maxColors` positions get `--chart-1`, `--chart-2`, ... in order. */
  lemma ColorFirstPeriod(index: nat, maxColors: nat)
    requires index < maxColors
    ensures ColorNumber(index, maxColors) == index + 1
    ensures GenerateColor(index, maxColors) == "hsl(var(--chart-" + IntToString(index + 1) + "))"
  {
  }

  /** The colour of a position repeats every `maxColors` positions. */
  lemma ColorPeriodic(index: nat, maxColors: nat)
    requires maxColors >= 1
    ensures GenerateColor(index + maxColors, maxColors) == GenerateColor(index, maxColors)
  {
    assert Mod(index + maxColors, maxColors) == Mod(index, maxColors);
  }

  /** Remainders of dividends less than `m` apart differ. */
  lemma {:induction false} ModDistinct(i: nat, j: nat, m: nat)
    requires m >= 1 && i < j < i + m
    ensures Mod(i, m) != Mod(j, m)
    decreases i
  {
    if i >= m {
      ModDistinct(i - m, j - m, m);
    } else if j >= m {
      assert Mod(j - m, m) == j - m;
    }
  }

  /** Positions less than `maxColors` apart get different colours. */
  lemma ColorsDistinctWithinPeriod(i: nat, j: nat, maxColors: nat)
    requires maxColors >= 1 && i < j < i + maxColors
    ensures GenerateColor(i, maxColors) != GenerateColor(j, maxColors)
  {
    ModDistinct(i, j, maxColors);
    IntToStringInjective(ColorNumber(i, maxColors), ColorNumber(j, maxColors));
    MiddleCancel("hsl(var(--chart-", IntToString(ColorNumber(i, maxColors)),
                 IntToString(ColorNumber(j, maxColors)), "))");
  }

  // ---------------------------------------------------------------------------
  // buildChartConfig / addColorsToChartData

  /** A data item: field names to their text. */
  type DataItem = map<string, string>

  /** A chart configuration entry: its label and, for item entries, its colour. */
  datatype ChartEntry = ChartEntry(text: string, color: Option<string>)

  type ChartConfig = map<string, ChartEntry>

  const JobOpenings: string := "Job Openings"
  const DefaultFill: string := "hsl(var(--chart-default))"

  /** `s.toLowerCase().replace(/\s/g, '')`: the configuration key of a label. */
  function ChartKey(s: string): string {
    RemoveWhitespace(LowerCase(s))
  }

  predicate Labelled(data: seq<DataItem>, labelKey: string) {
    forall k :: 0 <= k < |data| ==> labelKey in data[k]
  }

  /** The configuration after the first `|data|` items have been written. */
  function ChartConfigOf(data: seq<DataItem>, labelKey: string, valueKey: string, colorOf: int -> string)
    : (config: ChartConfig)
    requires Labelled(data, labelKey)
    ensures valueKey in config
    decreases |data|
  {
    if |data| == 0 then map[valueKey := ChartEntry(JobOpenings, None)]
    else
      var i := |data| - 1;
      var text := data[i][labelKey];
      ChartConfigOf(data[..i], labelKey, valueKey, colorOf)[ChartKey(text) := ChartEntry(text, Some(colorOf(i)))]
  }

  /** `buildChartConfig(data, labelKey, valueKey, colorGenerator)`. */
  method BuildChartConfig(data: seq<DataItem>, labelKey: string, valueKey: string, colorOf: int -> string)
    returns (config: ChartConfig)
    requires Labelled(data, labelKey)
    ensures config == ChartConfigOf(data, labelKey, valueKey, colorOf)
  {
    config := map[valueKey := ChartEntry(JobOpenings, None)];
    for i := 0 to |data|
      invariant config == ChartConfigOf(data[..i], labelKey, valueKey, colorOf)
    {
      var text := data[i][labelKey];
      config := config[ChartKey(text) := ChartEntry(text, Some(colorOf(i)))];
      assert data[..i + 1][..i] == data[..i];
    }
    assert data[..|data|] == data;
  }

  /** The keys are `valueKey` and the key of every item, and nothing else. */
  lemma {:induction false} ChartConfigKeys(data: seq<DataItem>, labelKey: string, valueKey: string, colorOf: int -> string)
    requires Labelled(data, labelKey)
    ensures forall key :: key in ChartConfigOf(data, labelKey, valueKey, colorOf) <==>
      key == valueKey || exists k :: 0 <= k < |data| && ChartKey(data[k][labelKey]) == key
    decreases |data|
  {
    if |data| > 0 {
      var i := |data| - 1;
      ChartConfigKeys(data[..i], labelKey, valueKey, colorOf);
      forall key | (exists k :: 0 <= k < |data| && ChartKey(data[k][labelKey]) == key)
        ensures key in ChartConfigOf(data, labelKey, valueKey, colorOf)
      {
        var k :| 0 <= k < |data| && ChartKey(data[k][labelKey]) == key;
        if k < i {
          assert data[..i][k] == data[k];
        }
      }
      forall key | key in ChartConfigOf(data[..i], labelKey, valueKey, colorOf) && key != valueKey
        ensures exists k :: 0 <= k < |data| && ChartKey(data[k][labelKey]) == key
      {
        var k :| 0 <= k < i && ChartKey(data[..i][k][labelKey]) == key;
        assert data[..i][k] == data[k];
      }
    }
  }

  /** The last item with a given key decides that key's entry: its label and its position's colour. */
  lemma {:induction false} ChartConfigLastWins(data: seq<DataItem>, labelKey: string, valueKey: string,
                                               colorOf: int -> string, j: nat)
    requires Labelled(data, labelKey) && j < |data|
    requires forall m :: j < m < |data| ==> ChartKey(data[m][labelKey]) != ChartKey(data[j][labelKey])
    ensures ChartKey(data[j][labelKey]) in ChartConfigOf(data, labelKey, valueKey, colorOf)
    ensures ChartConfigOf(data, labelKey, valueKey, colorOf)[ChartKey(data[j][labelKey])]
         == ChartEntry(data[j][labelKey], Some(colorOf(j)))
    decreases |data|
  {
    var i := |data| - 1;
    if j < i {
      assert data[..i][j] == data[j];
      ChartConfigLastWins(data[..i], labelKey, valueKey, colorOf, j);
    }
  }

  /** Unless some item's key is `valueKey`, that entry is the `Job Openings` label without a colour. */
  lemma {:induction false} ChartConfigValueEntry(data: seq<DataItem>, labelKey: string, valueKey: string,
                                                 colorOf: int -> string)
    requires Labelled(data, labelKey)
    requires forall m :: 0 <= m < |data| ==> ChartKey(data[m][labelKey]) != valueKey
    ensures ChartConfigOf(data, labelKey, valueKey, colorOf)[valueKey] == ChartEntry(JobOpenings, None)
    decreases |data|
  {
    if |data| > 0 {
      var i := |data| - 1;
      ChartConfigValueEntry(data[..i], labelKey, valueKey, colorOf);
    }
  }

  /** Items carry their label under the hard-coded field `skill`. */
  predicate HasSkill(data: seq<DataItem>) {
    Labelled(data, "skill")
  }

  /** `config[key]?.color || 'hsl(var(--chart-default))'`: an absent entry, colour or empty colour falls back. */
  function FillFor(config: ChartConfig, item: DataItem): (fill: string)
    requires "skill" in item
    ensures fill != ""
  {
    var key := ChartKey(item["skill"]);
    if key in config && config[key].color.Some? && config[key].color.value != "" then config[key].color.value
    else DefaultFill
  }

  /** `addColorsToChartData(data, config)`: `{ ...item, fill }` for each item. */
  function AddColorsToChartData(data: seq<DataItem>, config: ChartConfig): seq<DataItem>
    requires HasSkill(data)
  {
    seq(|data|, k requires 0 <= k < |data| => data[k]["fill" := FillFor(config, data[k])])
  }

  /**
   * Length and order are kept; each item gains (or replaces) `fill` and keeps
   * every other field; the fill is the entry's colour when there is one and the
   * default colour otherwise.
   */
  lemma AddColorsShape(data: seq<DataItem>, config: ChartConfig)
    requires HasSkill(data)
    ensures |AddColorsToChartData(data, config)| == |data|
    ensures forall k :: 0 <= k < |data| ==>
      var out := AddColorsToChartData(data, config)[k];
      out.Keys == data[k].Keys + {"fill"}
      && (forall f :: f in data[k] && f != "fill" ==> out[f] == data[k][f])
    ensures forall k :: 0 <= k < |data| ==>
      var out := AddColorsToChartData(data, config)[k];
      var key := ChartKey(data[k]["skill"]);
      var colored := key in config && config[key].color.Some? && config[key].color.value != "";
      (colored ==> out["fill"] == config[key].color.value)
      && (!colored ==> out["fill"] == DefaultFill)
  {
  }

  /**
   * Colouring data with the configuration built from it over `skill`: an item
   * gets the colour of the position of the last item sharing its key, when
   * the colours are never empty.
   */
  lemma ChartColorsOfOwnConfig(data: seq<DataItem>, valueKey: string, colorOf: int -> string, k: nat, j: nat)
    requires HasSkill(data) && k <= j < |data|
    requires forall n :: colorOf(n) != ""
    requires ChartKey(data[k]["skill"]) == ChartKey(data[j]["skill"])
    requires forall m :: j < m < |data| ==> ChartKey(data[m]["skill"]) != ChartKey(data[j]["skill"])
    ensures AddColorsToChartData(data, ChartConfigOf(data, "skill", valueKey, colorOf))[k]["fill"] == colorOf(j)
  {
    ChartConfigLastWins(data, "skill", valueKey, colorOf, j);
  }
}
