/**
 * The combination advisor: groups colour names into four categories and turns
 * the names of the two leading colours into styling suggestions.
 *
 * Source: app/color_combinations.py.
 */
module ColorCombinations {
  import opened ColorClassifier

  // ---------------------------------------------------------------------------
  // Names the advisor knows beyond the classifier's own
  // ---------------------------------------------------------------------------

  const Beige := "ベージュ"
  const Pink := "ピンク"

  // ---------------------------------------------------------------------------
  // get_color_category
  // ---------------------------------------------------------------------------

  const NeutralCategory := "ニュートラル"
  const WarmCategory := "暖色"
  const CoolCategory := "寒色"
  const OtherCategory := "その他"

  const Categories: set<string> := {NeutralCategory, WarmCategory, CoolCategory, OtherCategory}

  const NeutralColors: seq<string> := [Black, White, Gray, Beige, Brown]
  const WarmColors: seq<string> := [Red, Orange, Yellow, Brown, Pink]
  const CoolColors: seq<string> := [Blue, Green, Purple, Teal, YellowGreen]

  /** First-match lookup: the neutral list is consulted before the warm and cool lists. */
  function GetColorCategory(name: string): (category: string)
    ensures category in Categories
  {
    if name in NeutralColors then NeutralCategory
    else if name in WarmColors then WarmCategory
    else if name in CoolColors then CoolCategory
    else OtherCategory
  }

  /** Each category, stated as membership in the lists with the neutral list first. */
  lemma CategoryExactly(name: string)
    ensures GetColorCategory(name) == NeutralCategory <==> name in NeutralColors
    ensures GetColorCategory(name) == WarmCategory <==> name !in NeutralColors && name in WarmColors
    ensures GetColorCategory(name) == CoolCategory <==>
              name !in NeutralColors && name !in WarmColors && name in CoolColors
    ensures GetColorCategory(name) == OtherCategory <==>
              name !in NeutralColors && name !in WarmColors && name !in CoolColors
  {
  }

  /** Brown is listed as both neutral and warm; the neutral list wins. */
  lemma BrownIsNeutral()
    ensures Brown in WarmColors && GetColorCategory(Brown) == NeutralCategory
  {
  }

  /** Of the classifier's names only "other" falls outside the three named categories. */
  lemma {:induction false} ClassifierNamesCategory(name: string)
    requires name in ColorNames
    ensures GetColorCategory(name) == OtherCategory <==> name == Other
    ensures GetColorCategory(name) == NeutralCategory <==> name in {Black, White, Gray, Brown}
    ensures GetColorCategory(name) == WarmCategory <==> name in {Red, Orange, Yellow}
    ensures GetColorCategory(name) == CoolCategory <==> name in {Blue, Green, Purple, Teal, YellowGreen}
  {
  }

  // ---------------------------------------------------------------------------
  // Suggestions
  // ---------------------------------------------------------------------------

  /** One kind of suggestion; interpolated names are carried as fields. */
  datatype Suggestion =
    | NoColorsDetected
    | NeutralPairing(main: string)
    | RedAnalogous
    | BlueAnalogous
    | YellowAnalogous
    | GreenAnalogous
    | Contrast(main: string, accent: string)
    | WarmMood
    | CoolMood
    | BlackRemark
    | WhiteRemark
    | GrayRemark
    | BeigeRemark
    | NeutralLeads(main: string, secondary: string)
    | AccentLeads(main: string, secondary: string)
    | NoSpecificAdvice

  /** The text shown for each kind of suggestion. */
  function Text(s: Suggestion): string {
    match s
    case NoColorsDetected => "画像から色を検出できませんでした。"
    case NeutralPairing(main) => main + "には、白、黒、グレーなどのニュートラルカラーがよく合います。"
    case RedAnalogous => "赤には、ピンクやオレンジなどの類似色でグラデーションを作るのもおすすめです。"
    case BlueAnalogous => "青には、青緑や紫などの類似色で統一感を出すと良いでしょう。"
    case YellowAnalogous => "黄には、オレンジや黄緑などの類似色で明るい印象に。"
    case GreenAnalogous => "緑には、黄緑や青緑などの類似色で自然な印象に。"
    case Contrast(main, accent) => main + "には、" + accent + "を差し色にしてコントラストを楽しむこともできます。"
    case WarmMood => "暖色系の色は、暖かみがあり親しみやすい印象を与えます。"
    case CoolMood => "寒色系の色は、クールで落ち着いた印象を与えます。"
    case BlackRemark => "黒はどんな色とも合わせやすい万能カラーです。"
    case WhiteRemark => "白は清潔感があり、他の色を引き立てます。"
    case GrayRemark => "グレーは上品で洗練された印象を与え、どんな色とも相性が良いです。"
    case BeigeRemark => "ベージュはナチュラルで優しい印象を与え、オフィススタイルにも最適です。"
    case NeutralLeads(main, secondary) => main + "と" + secondary + "の組み合わせは、モダンでバランスが良いでしょう。"
    case AccentLeads(main, secondary) => main + "に" + secondary + "を合わせると、メインの色が引き立ちます。"
    case NoSpecificAdvice => "この色の組み合わせについては、特別な提案はありません。"
  }

  /** The texts of a set of suggestions. */
  function Rendered(advice: set<Suggestion>): set<string> {
    set s | s in advice :: Text(s)
  }

  /** The complementary (contrast) table; brown and pink have no reverse entry. */
  const ComplementaryColors: map<string, string> := map[
    Red := Green, Green := Red,
    Blue := Orange, Orange := Blue,
    Yellow := Purple, Purple := Yellow,
    Brown := Teal,
    Pink := Green
  ]

  /** The analogous-colour suggestion for each of the four names that have one. */
  const AnalogousTable: map<string, Suggestion> := map[
    Red := RedAnalogous, Blue := BlueAnalogous, Yellow := YellowAnalogous, Green := GreenAnalogous
  ]

  /** The canned remark for each of the four names that have one. */
  const RemarkTable: map<string, Suggestion> := map[
    Black := BlackRemark, White := WhiteRemark, Gray := GrayRemark, Beige := BeigeRemark
  ]

  // Each rule contributes at most one suggestion, looking only at names.

  function NeutralPairingRule(main: string): set<Suggestion> {
    if main !in [Black, White, Gray] then {NeutralPairing(main)} else {}
  }

  function AnalogousRule(main: string): set<Suggestion> {
    if main in AnalogousTable then {AnalogousTable[main]} else {}
  }

  function ContrastRule(main: string): set<Suggestion> {
    if main in ComplementaryColors then {Contrast(main, ComplementaryColors[main])} else {}
  }

  function MoodRule(main: string): set<Suggestion> {
    var category := GetColorCategory(main);
    if category == WarmCategory then {WarmMood}
    else if category == CoolCategory then {CoolMood}
    else {}
  }

  function RemarkRule(main: string): set<Suggestion> {
    if main in RemarkTable then {RemarkTable[main]} else {}
  }

  /** The neutral-plus-accent rule, phrased by which of the two leading colours is neutral. */
  function PairingRule(main: string, secondary: string): set<Suggestion> {
    var mainNeutral := GetColorCategory(main) == NeutralCategory;
    var secondaryNeutral := GetColorCategory(secondary) == NeutralCategory;
    if mainNeutral && !secondaryNeutral then {NeutralLeads(main, secondary)}
    else if !mainNeutral && secondaryNeutral then {AccentLeads(main, secondary)}
    else {}
  }

  /** Everything the rules suggest for the leading colours. */
  function RuleAdvice(colors: seq<ClassifiedColor>): set<Suggestion>
    requires colors != []
  {
    var main := colors[0].name;
    NeutralPairingRule(main) + AnalogousRule(main) + ContrastRule(main) + MoodRule(main)
    + RemarkRule(main) + (if |colors| > 1 then PairingRule(main, colors[1].name) else {})
  }

  /** The set of suggestions for a ranked list of named colours. */
  function Advice(colors: seq<ClassifiedColor>): set<Suggestion> {
    if colors == [] then {NoColorsDetected}
    else if RuleAdvice(colors) == {} then {NoSpecificAdvice}
    else RuleAdvice(colors)
  }

  // ---------------------------------------------------------------------------
  // suggest_color_combinations
  // ---------------------------------------------------------------------------

  predicate NoDuplicates<T(==)>(s: seq<T>) {
    forall i, j :: 0 <= i < j < |s| ==> s[i] != s[j]
  }

  function Elements<T>(s: seq<T>): set<T> {
    set x | x in s
  }

  /** Lists the elements of a set once each, in an unspecified order. */
  method SetToList<T(==)>(s: set<T>) returns (list: seq<T>)
    ensures Elements(list) == s
    ensures NoDuplicates(list)
    ensures |list| == |s|
  {
    list := [];
    var rest := s;
    while rest != {}
      invariant rest <= s
      invariant Elements(list) == s - rest
      invariant NoDuplicates(list)
      invariant |list| + |rest| == |s|
      decreases |rest|
    {
      var x :| x in rest;
      assert Elements(list + [x]) == Elements(list) + {x};
      list := list + [x];
      rest := rest - {x};
    }
  }

  /** Appends the text of one suggestion, keeping track of which kinds were given. */
  method Append(list: seq<string>, ghost given: set<Suggestion>, s: Suggestion)
    returns (list': seq<string>, ghost given': set<Suggestion>)
    requires Elements(list) == Rendered(given)
    ensures list' == list + [Text(s)] && given' == given + {s}
    ensures Elements(list') == Rendered(given')
  {
    list', given' := list + [Text(s)], given + {s};
    assert Elements(list') == Elements(list) + {Text(s)};
  }

  // Each rule block of the source, appending to the suggestion list.

  method AddNeutralPairing(list: seq<string>, ghost given: set<Suggestion>, mainName: string)
    returns (list': seq<string>, ghost given': set<Suggestion>)
    requires Elements(list) == Rendered(given)
    ensures Elements(list') == Rendered(given') && given' == given + NeutralPairingRule(mainName)
    ensures list' == list || list' == list + [Text(NeutralPairing(mainName))]
  {
    list', given' := list, given;
    if mainName !in [Black, White, Gray] {
      list', given' := Append(list', given', NeutralPairing(mainName));
    }
  }

  method AddAnalogous(list: seq<string>, ghost given: set<Suggestion>, mainName: string)
    returns (list': seq<string>, ghost given': set<Suggestion>)
    requires Elements(list) == Rendered(given)
    ensures Elements(list') == Rendered(given') && given' == given + AnalogousRule(mainName)
    ensures |list| <= |list'|
  {
    list', given' := list, given;
    if mainName == Red {
      list', given' := Append(list', given', RedAnalogous);
    } else if mainName == Blue {
      list', given' := Append(list', given', BlueAnalogous);
    } else if mainName == Yellow {
      list', given' := Append(list', given', YellowAnalogous);
    } else if mainName == Green {
      list', given' := Append(list', given', GreenAnalogous);
    }
  }

  method AddContrast(list: seq<string>, ghost given: set<Suggestion>, mainName: string)
    returns (list': seq<string>, ghost given': set<Suggestion>)
    requires Elements(list) == Rendered(given)
    ensures Elements(list') == Rendered(given') && given' == given + ContrastRule(mainName)
    ensures |list| <= |list'|
  {
    list', given' := list, given;
    if mainName in ComplementaryColors {
      var comp := ComplementaryColors[mainName];
      list', given' := Append(list', given', Contrast(mainName, comp));
    }
  }

  method AddMood(list: seq<string>, ghost given: set<Suggestion>, mainCategory: string)
    returns (list': seq<string>, ghost given': set<Suggestion>)
    requires Elements(list) == Rendered(given)
    ensures Elements(list') == Rendered(given')
    ensures given' == given + (if mainCategory == WarmCategory then {WarmMood}
                               else if mainCategory == CoolCategory then {CoolMood} else {})
    ensures |list| <= |list'|
  {
    list', given' := list, given;
    if mainCategory == WarmCategory {
      list', given' := Append(list', given', WarmMood);
    } else if mainCategory == CoolCategory {
      list', given' := Append(list', given', CoolMood);
    }
  }

  method AddRemark(list: seq<string>, ghost given: set<Suggestion>, mainName: string)
    returns (list': seq<string>, ghost given': set<Suggestion>)
    requires Elements(list) == Rendered(given)
    ensures Elements(list') == Rendered(given') && given' == given + RemarkRule(mainName)
    ensures |list| <= |list'|
  {
    list', given' := list, given;
    if mainName == Black {
      list', given' := Append(list', given', BlackRemark);
    } else if mainName == White {
      list', given' := Append(list', given', WhiteRemark);
    } else if mainName == Gray {
      list', given' := Append(list', given', GrayRemark);
    } else if mainName == Beige {
      list', given' := Append(list', given', BeigeRemark);
    }
  }

  method AddPairing(list: seq<string>, ghost given: set<Suggestion>, colors: seq<ClassifiedColor>,
                    mainName: string, mainCategory: string)
    returns (list': seq<string>, ghost given': set<Suggestion>)
    requires colors != [] && mainName == colors[0].name && mainCategory == GetColorCategory(mainName)
    requires Elements(list) == Rendered(given)
    ensures Elements(list') == Rendered(given')
    ensures given' == given + (if |colors| > 1 then PairingRule(mainName, colors[1].name) else {})
    ensures |list| <= |list'|
  {
    list', given' := list, given;
    if |colors| > 1 {
      var secondaryName := colors[1].name;
      var secondaryCategory := GetColorCategory(secondaryName);
      if mainCategory == NeutralCategory && secondaryCategory != NeutralCategory {
        list', given' := Append(list', given', NeutralLeads(mainName, secondaryName));
      } else if mainCategory != NeutralCategory && secondaryCategory == NeutralCategory {
        list', given' := Append(list', given', AccentLeads(mainName, secondaryName));
      }
    }
  }

  /** Some rule fires for every non-empty input, so the fallback is never reached. */
  lemma NonEmptyNeverFallsBack(colors: seq<ClassifiedColor>)
    requires colors != []
    ensures RuleAdvice(colors) != {} && Advice(colors) == RuleAdvice(colors)
    ensures NoSpecificAdvice !in Advice(colors) && NoColorsDetected !in Advice(colors)
  {
    var main := colors[0].name;
    if main in [Black, White, Gray] {
      assert RemarkTable[main] in RemarkRule(main);
    } else {
      assert NeutralPairing(main) in NeutralPairingRule(main);
    }
  }

  lemma GivenListIsAdvice(colors: seq<ClassifiedColor>, list: seq<string>, given: set<Suggestion>)
    requires colors != [] && given == RuleAdvice(colors) && Elements(list) == Rendered(given)
    ensures list != [] && Rendered(Advice(colors)) == Elements(list)
  {
    NonEmptyNeverFallsBack(colors);
    var k :| k in given;
    assert Text(k) in Rendered(given);
  }

  /**
   * Builds the suggestion list rule by rule from the names of the first two
   * colours, falls back when no rule fired, and removes duplicate texts.
   */
  method SuggestColorCombinations(colors: seq<ClassifiedColor>) returns (suggestions: seq<string>)
    ensures colors == [] ==> suggestions == [Text(NoColorsDetected)]
    ensures Elements(suggestions) == Rendered(Advice(colors))
    ensures NoDuplicates(suggestions)
  {
    if colors == [] {
      return [Text(NoColorsDetected)];
    }
    var mainName := colors[0].name;
    var mainCategory := GetColorCategory(mainName);

    var list: seq<string> := [];
    ghost var given: set<Suggestion> := {};
    list, given := AddNeutralPairing(list, given, mainName);
    list, given := AddAnalogous(list, given, mainName);
    list, given := AddContrast(list, given, mainName);
    list, given := AddMood(list, given, mainCategory);
    list, given := AddRemark(list, given, mainName);
    list, given := AddPairing(list, given, colors, mainName, mainCategory);
    GivenListIsAdvice(colors, list, given);
    if list == [] {
      list := [Text(NoSpecificAdvice)];
    }
    assert Elements(list) == Rendered(Advice(colors));

    suggestions := SetToList(Elements(list));
  }

  // ---------------------------------------------------------------------------
  // Properties of the advice
  // ---------------------------------------------------------------------------

  /** An empty input yields exactly the "no colours detected" message. */
  lemma EmptyInputAdvice()
    ensures Advice([]) == {NoColorsDetected}
    ensures Rendered(Advice([])) == {"画像から色を検出できませんでした。"}
  {
  }

  /** The fallback text differs from every other suggestion text. */
  lemma {:induction false} FallbackTextIsDistinct(k: Suggestion)
    requires k != NoSpecificAdvice
    ensures Text(k) != Text(NoSpecificAdvice)
  {
    var t, f := Text(k), Text(NoSpecificAdvice);
    assert f[|f| - 2] == 'ん';
    match k
    case NeutralPairing(m) =>
      assert t == m + "には、白、黒、グレーなどのニュートラルカラーがよく合います。";
      assert t[|t| - 2] == 'す';
    case Contrast(m, a) =>
      assert t == m + "には、" + a + "を差し色にしてコントラストを楽しむこともできます。";
      assert t[|t| - 2] == 'す';
    case NeutralLeads(m, a) =>
      assert t == m + "と" + a + "の組み合わせは、モダンでバランスが良いでしょう。";
      assert t[|t| - 2] == 'う';
    case AccentLeads(m, a) =>
      assert t == m + "に" + a + "を合わせると、メインの色が引き立ちます。";
      assert t[|t| - 2] == 'す';
    case _ =>
  }

  /** For a non-empty input the fallback text is never among the suggestions. */
  lemma FallbackTextNeverShown(colors: seq<ClassifiedColor>)
    requires colors != []
    ensures Text(NoSpecificAdvice) !in Rendered(Advice(colors))
    ensures Rendered(Advice(colors)) != {}
  {
    NonEmptyNeverFallsBack(colors);
    if Text(NoSpecificAdvice) in Rendered(Advice(colors)) {
      var k :| k in Advice(colors) && Text(k) == Text(NoSpecificAdvice);
      FallbackTextIsDistinct(k);
    }
    var k :| k in Advice(colors);
    assert Text(k) in Rendered(Advice(colors));
  }

  /** Two inputs agree on everything the advisor reads: the names of the first two colours. */
  predicate SameLeadingNames(a: seq<ClassifiedColor>, b: seq<ClassifiedColor>) {
    && (a == [] <==> b == [])
    && (|a| > 1 <==> |b| > 1)
    && (a != [] ==> a[0].name == b[0].name)
    && (|a| > 1 ==> a[1].name == b[1].name)
  }

  /**
   * The advice ignores rgb values, percentages and every colour after the
   * second: inputs with the same leading names get the same advice.
   */
  lemma AdviceReadsOnlyLeadingNames(a: seq<ClassifiedColor>, b: seq<ClassifiedColor>)
    requires SameLeadingNames(a, b)
    ensures Advice(a) == Advice(b)
  {
    if a != [] {
      assert RuleAdvice(a) == RuleAdvice(b);
    }
  }

  /** The neutral-pairing suggestion is given exactly when the main colour is not black, white or gray. */
  lemma NeutralPairingExactly(colors: seq<ClassifiedColor>)
    ensures forall m :: NeutralPairing(m) in Advice(colors) <==>
              colors != [] && m == colors[0].name && m !in [Black, White, Gray]
  {
    if colors != [] {
      NonEmptyNeverFallsBack(colors);
    }
  }

  /** A canned remark is given exactly when the main colour is black, white, gray or beige. */
  lemma RemarkExactly(colors: seq<ClassifiedColor>)
    ensures (exists k :: k in Advice(colors) && k in RemarkTable.Values) <==>
              colors != [] && colors[0].name in [Black, White, Gray, Beige]
  {
    if colors != [] {
      NonEmptyNeverFallsBack(colors);
      var main := colors[0].name;
      if main in [Black, White, Gray, Beige] {
        assert RemarkTable[main] in Advice(colors);
      }
    }
  }

  /**
   * The neutral-plus-accent suggestion needs a second colour and exactly one
   * neutral colour among the two leading ones; its phrasing says which.
   */
  lemma PairingExactly(colors: seq<ClassifiedColor>)
    ensures forall m, s :: NeutralLeads(m, s) in Advice(colors) <==>
              |colors| > 1 && m == colors[0].name && s == colors[1].name
              && GetColorCategory(m) == NeutralCategory && GetColorCategory(s) != NeutralCategory
    ensures forall m, s :: AccentLeads(m, s) in Advice(colors) <==>
              |colors| > 1 && m == colors[0].name && s == colors[1].name
              && GetColorCategory(m) != NeutralCategory && GetColorCategory(s) == NeutralCategory
  {
    if colors != [] {
      NonEmptyNeverFallsBack(colors);
    }
  }

  /** The contrast suggestion is the complementary-table entry of the main colour, if it has one. */
  lemma ContrastExactly(colors: seq<ClassifiedColor>)
    ensures forall m, a :: Contrast(m, a) in Advice(colors) <==>
              colors != [] && m == colors[0].name && m in ComplementaryColors && a == ComplementaryColors[m]
  {
    if colors != [] {
      NonEmptyNeverFallsBack(colors);
    }
  }

  /**
   * Red/green, blue/orange and yellow/purple are mutual complements; brown and
   * pink point to teal and green with no entry back.
   */
  lemma ComplementaryTableShape()
    ensures ComplementaryColors.Keys == {Red, Green, Blue, Orange, Yellow, Purple, Brown, Pink}
    ensures forall m :: m in [Red, Green, Blue, Orange, Yellow, Purple] ==>
              ComplementaryColors[m] in ComplementaryColors
              && ComplementaryColors[ComplementaryColors[m]] == m
    ensures ComplementaryColors[Brown] == Teal && Teal !in ComplementaryColors
    ensures ComplementaryColors[Pink] == Green && ComplementaryColors[Green] != Pink
  {
  }

  /** The whole advice when the secondary colour (if any) decides only the pairing rule. */
  function PairingPart(colors: seq<ClassifiedColor>): set<Suggestion>
    requires colors != []
  {
    if |colors| > 1 then PairingRule(colors[0].name, colors[1].name) else {}
  }

  /** A teal main colour gets no contrast suggestion: brown's entry has no reverse. */
  lemma TealMainAdvice(colors: seq<ClassifiedColor>)
    requires colors != [] && colors[0].name == Teal
    ensures Advice(colors) == {NeutralPairing(Teal), CoolMood} + PairingPart(colors)
    ensures forall k :: k in Advice(colors) ==> !k.Contrast?
  {
    NonEmptyNeverFallsBack(colors);
  }

  /** A brown main colour is neutral, so it gets the teal contrast but no mood suggestion. */
  lemma BrownMainAdvice(colors: seq<ClassifiedColor>)
    requires colors != [] && colors[0].name == Brown
    ensures Advice(colors) == {NeutralPairing(Brown), Contrast(Brown, Teal)} + PairingPart(colors)
    ensures WarmMood !in Advice(colors)
  {
    NonEmptyNeverFallsBack(colors);
    BrownIsNeutral();
  }

  /** When every name comes from the classifier, the beige and pink entries are never used. */
  lemma ClassifierNamesSkipBeigeAndPink(colors: seq<ClassifiedColor>)
    requires forall i :: 0 <= i < |colors| ==> colors[i].name in ColorNames
    ensures BeigeRemark !in Advice(colors)
    ensures forall a :: Contrast(Pink, a) !in Advice(colors)
    ensures forall k :: k in Advice(colors) ==> k != NoSpecificAdvice
  {
    if colors != [] {
      NonEmptyNeverFallsBack(colors);
      assert colors[0].name in ColorNames;
    }
  }

  /** Red (75.23%), white (15.10%), gray (9.67%). */
  const SampleColors: seq<ClassifiedColor> := [
    ClassifiedColor(Rgb(200, 50, 50), Red, 75.23),
    ClassifiedColor(Rgb(240, 240, 240), White, 15.10),
    ClassifiedColor(Rgb(100, 100, 100), Gray, 9.67)
  ]

  /** The suggestions the source's sample input is meant to get. */
  const SampleExpected: set<Suggestion> :=
    {NeutralPairing(Red), RedAnalogous, Contrast(Red, Green), WarmMood, AccentLeads(Red, White)}

  /** The sample input gets exactly five kinds of suggestion and no black, white or gray remark. */
  lemma SampleAdvice()
    ensures Advice(SampleColors) == SampleExpected
    ensures BlackRemark !in Advice(SampleColors) && WhiteRemark !in Advice(SampleColors)
    ensures GrayRemark !in Advice(SampleColors)
  {
    NonEmptyNeverFallsBack(SampleColors);
    assert RuleAdvice(SampleColors) == SampleExpected;
  }

  /** The texts of the expected sample suggestions, in the order the rules add them. */
  const SampleTextList: seq<string> :=
    [Text(NeutralPairing(Red)), Text(RedAnalogous), Text(Contrast(Red, Green)),
     Text(WarmMood), Text(AccentLeads(Red, White))]

  lemma SampleTextsDiffer()
    ensures NoDuplicates(SampleTextList)
  {
    var t := SampleTextList;
    assert |t[0]| == 31 && |t[1]| == 38 && |t[2]| == 30 && |t[3]| == 27 && |t[4]| == 23;
  }

  /** The five texts of the sample's suggestions are distinct, so removing duplicates keeps all five. */
  lemma SampleTexts()
    ensures Rendered(Advice(SampleColors)) == Elements(SampleTextList)
    ensures |Rendered(Advice(SampleColors))| == 5
  {
    SampleAdvice();
    assert Rendered(SampleExpected) == Elements(SampleTextList);
    SampleTextsDiffer();
    DistinctElements(SampleTextList);
  }

  lemma {:induction false} DistinctElements<T>(s: seq<T>)
    requires NoDuplicates(s)
    ensures |Elements(s)| == |s|
  {
    if s != [] {
      assert Elements(s) == Elements(s[1..]) + {s[0]};
      assert s[0] !in Elements(s[1..]);
      DistinctElements(s[1..]);
    }
  }
}
