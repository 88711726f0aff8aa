/**
 * The colour classifier: maps an OpenCV-style HSV triple to one of thirteen
 * Japanese colour names by an ordered chain of threshold rules, and annotates
 * a ranked list of extracted colours with those names.
 *
 * Source: app/color_classifier.py.
 */
module ColorClassifier {

  // ---------------------------------------------------------------------------
  // Colour names (the closed set the classifier can return)
  // ---------------------------------------------------------------------------

  const Black := "黒"
  const White := "白"
  const Gray := "グレー"
  const Red := "赤"
  const Orange := "オレンジ"
  const Brown := "茶"
  const Yellow := "黄"
  const YellowGreen := "黄緑"
  const Green := "緑"
  const Teal := "青緑"
  const Blue := "青"
  const Purple := "紫"
  const Other := "その他"

  /** Every name the classifier can return. */
  const ColorNames: set<string> :=
    {Black, White, Gray, Red, Orange, Brown, Yellow, YellowGreen, Green, Teal, Blue, Purple, Other}

  // ---------------------------------------------------------------------------
  // Data model
  // ---------------------------------------------------------------------------

  /** One 8-bit colour channel. */
  type Channel = x: int | 0 <= x <= 255

  datatype Rgb = Rgb(r: Channel, g: Channel, b: Channel)

  /** An HSV triple as the classifier receives it; no range is assumed. */
  datatype Hsv = Hsv(h: int, s: int, v: int)

  /** OpenCV's 8-bit HSV ranges: hue 0-179, saturation and value 0-255. */
  predicate InOpenCvRange(p: Hsv) {
    0 <= p.h <= 179 && 0 <= p.s <= 255 && 0 <= p.v <= 255
  }

  /** What the RGB-to-HSV conversion is documented to return. */
  type OpenCvHsv = p: Hsv | InOpenCvRange(p) witness Hsv(0, 0, 0)

  /** A dominant colour as produced by extraction; the percentage is only passed through. */
  datatype ExtractedColor = ExtractedColor(rgb: Rgb, percentage: real)

  /** An extracted colour annotated with its name. */
  datatype ClassifiedColor = ClassifiedColor(rgb: Rgb, name: string, percentage: real)

  // ---------------------------------------------------------------------------
  // classify_hsv_color
  // ---------------------------------------------------------------------------

  /** The rule chain: black, white and gray first, then ten inclusive hue ranges. */
  function ClassifyHsv(p: Hsv): (name: string)
    ensures name in ColorNames
  {
    if p.v < 40 then Black
    else if p.v > 200 && p.s < 50 then White
    else if p.s < 30 then Gray
    else if (p.h >= 0 && p.h <= 10) || (p.h >= 160 && p.h <= 179) then Red
    else if p.h >= 11 && p.h <= 25 then Orange
    else if p.h >= 26 && p.h <= 35 then Brown
    else if p.h >= 36 && p.h <= 75 then Yellow
    else if p.h >= 76 && p.h <= 85 then YellowGreen
    else if p.h >= 86 && p.h <= 100 then Green
    else if p.h >= 101 && p.h <= 120 then Teal
    else if p.h >= 121 && p.h <= 140 then Blue
    else if p.h >= 141 && p.h <= 159 then Purple
    else Other
  }

  /** True when none of the black, white or gray rules applies, so the hue decides. */
  predicate ReachesHueStage(p: Hsv) {
    p.v >= 40 && !(p.v > 200 && p.s < 50) && p.s >= 30
  }

  // ---------------------------------------------------------------------------
  // The hue rules as a lookup table (reference definition)
  // ---------------------------------------------------------------------------

  /** An inclusive hue interval and the name it selects. */
  datatype HueRange = HueRange(lo: int, hi: int, name: string)

  /** The ten hue intervals in ascending order; red appears at both ends of the hue circle. */
  const HueTable: seq<HueRange> := [
    HueRange(0, 10, Red),
    HueRange(11, 25, Orange),
    HueRange(26, 35, Brown),
    HueRange(36, 75, Yellow),
    HueRange(76, 85, YellowGreen),
    HueRange(86, 100, Green),
    HueRange(101, 120, Teal),
    HueRange(121, 140, Blue),
    HueRange(141, 159, Purple),
    HueRange(160, 179, Red)
  ]

  /** First-match lookup of a hue in a table of intervals; "other" when none matches. */
  function HueLookup(table: seq<HueRange>, h: int): (name: string)
    ensures name == Other || exists i :: 0 <= i < |table| && table[i].name == name
  {
    if table == [] then Other
    else if table[0].lo <= h <= table[0].hi then table[0].name
    else HueLookup(table[1..], h)
  }

  /** Intervals are ascending and pairwise disjoint. */
  predicate Ascending(table: seq<HueRange>) {
    forall i, j :: 0 <= i < j < |table| ==> table[i].hi < table[j].lo
  }

  /** Intervals follow one another with no hole between lo and hi of the whole table. */
  predicate Contiguous(table: seq<HueRange>) {
    forall i :: 0 <= i < |table| - 1 ==> table[i].hi + 1 == table[i + 1].lo
  }

  /** The classifier's answer, stated through the table instead of the if-chain. */
  function ReferenceClassify(p: Hsv): (name: string)
    ensures name in ColorNames
  {
    if p.v < 40 then Black
    else if p.v > 200 && p.s < 50 then White
    else if p.s < 30 then Gray
    else
      TableNamesAreColorNames(p.h);
      HueLookup(HueTable, p.h)
  }

  lemma TableNamesAreColorNames(h: int)
    ensures HueLookup(HueTable, h) in ColorNames
  {
    var n := HueLookup(HueTable, h);
    if n != Other {
      var i :| 0 <= i < |HueTable| && HueTable[i].name == n;
    }
  }

  /** The hue table is ordered and contiguous, and spans exactly 0..179. */
  lemma HueTableShape()
    ensures |HueTable| == 10
    ensures Ascending(HueTable) && Contiguous(HueTable)
    ensures HueTable[0].lo == 0 && HueTable[|HueTable| - 1].hi == 179
    ensures forall i :: 0 <= i < |HueTable| ==> HueTable[i].lo <= HueTable[i].hi
  {
  }

  /** In an ascending table the lookup returns the name of the interval that contains h. */
  lemma {:induction false} LookupFindsRange(table: seq<HueRange>, h: int, i: int)
    requires Ascending(table)
    requires 0 <= i < |table| && table[i].lo <= h <= table[i].hi
    ensures HueLookup(table, h) == table[i].name
  {
    if i > 0 {
      assert !(table[0].lo <= h <= table[0].hi) by {
        assert table[0].hi < table[i].lo;
      }
      assert Ascending(table[1..]) by {
        forall a, b | 0 <= a < b < |table[1..]| ensures table[1..][a].hi < table[1..][b].lo {
          assert table[1..][a] == table[a + 1] && table[1..][b] == table[b + 1];
        }
      }
      LookupFindsRange(table[1..], h, i - 1);
    }
  }

  /** A hue outside every interval of the table is "other". */
  lemma {:induction false} LookupMisses(table: seq<HueRange>, h: int)
    requires forall i :: 0 <= i < |table| ==> !(table[i].lo <= h <= table[i].hi)
    ensures HueLookup(table, h) == Other
  {
    if table != [] {
      assert forall i :: 0 <= i < |table[1..]| ==> table[1..][i] == table[i + 1];
      LookupMisses(table[1..], h);
    }
  }

  /** The index of the table interval holding a hue in 0..179. */
  function HueIndex(h: int): (i: int)
    requires 0 <= h <= 179
    ensures 0 <= i < |HueTable| && HueTable[i].lo <= h <= HueTable[i].hi
  {
    if h <= 10 then 0
    else if h <= 25 then 1
    else if h <= 35 then 2
    else if h <= 75 then 3
    else if h <= 85 then 4
    else if h <= 100 then 5
    else if h <= 120 then 6
    else if h <= 140 then 7
    else if h <= 159 then 8
    else 9
  }

  /** The if-chain and the table agree on every input. */
  lemma {:induction false} ClassifyMatchesTable(p: Hsv)
    ensures ClassifyHsv(p) == ReferenceClassify(p)
  {
    if ReachesHueStage(p) {
      HueTableShape();
      if 0 <= p.h <= 179 {
        LookupFindsRange(HueTable, p.h, HueIndex(p.h));
      } else {
        LookupMisses(HueTable, p.h);
      }
    }
  }

  // ---------------------------------------------------------------------------
  // What each rule of the chain decides
  // ---------------------------------------------------------------------------

  /** A value below 40 is black, whatever the hue and saturation, and nothing else is black. */
  lemma BlackExactly(p: Hsv)
    ensures ClassifyHsv(p) == Black <==> p.v < 40
  {
  }

  /** White needs value 40..255 above 200 and saturation below 50. */
  lemma WhiteExactly(p: Hsv)
    ensures ClassifyHsv(p) == White <==> p.v >= 40 && p.v > 200 && p.s < 50
  {
  }

  /** Gray is a colour that is neither black nor white with saturation below 30. */
  lemma GrayExactly(p: Hsv)
    ensures ClassifyHsv(p) == Gray <==> p.v >= 40 && !(p.v > 200 && p.s < 50) && p.s < 30
  {
  }

  /**
   * A bright colour with saturation 30..49 is white, although saturation 30 and
   * above would otherwise go to the hue rules: the white rule shadows them.
   */
  lemma WhiteShadowsHue(p: Hsv)
    requires p.v > 200 && 30 <= p.s < 50
    ensures ClassifyHsv(p) == White && !ReachesHueStage(p)
  {
  }

  /** Past the first three rules, the result is the table entry for the hue. */
  lemma HueDecides(p: Hsv)
    requires ReachesHueStage(p)
    ensures ClassifyHsv(p) == HueLookup(HueTable, p.h)
  {
    ClassifyMatchesTable(p);
  }

  /** Red covers both ends of the hue circle: 0-10 and 160-179. */
  lemma RedExactly(p: Hsv)
    ensures ClassifyHsv(p) == Red <==> ReachesHueStage(p) && (0 <= p.h <= 10 || 160 <= p.h <= 179)
  {
  }

  /** "Other" arises only from a hue outside 0..179 once the hue rules are reached. */
  lemma OtherExactly(p: Hsv)
    ensures ClassifyHsv(p) == Other <==> ReachesHueStage(p) && !(0 <= p.h <= 179)
  {
  }

  /** With the documented OpenCV ranges the classifier never answers "other". */
  lemma OpenCvNeverOther(p: OpenCvHsv)
    ensures ClassifyHsv(p) in ColorNames - {Other}
  {
    OtherExactly(p);
  }

  /** The boundary values of the threshold rules. */
  lemma Boundaries()
    ensures ClassifyHsv(Hsv(10, 100, 100)) == Red && ClassifyHsv(Hsv(11, 100, 100)) == Orange
    ensures ClassifyHsv(Hsv(159, 100, 100)) == Purple && ClassifyHsv(Hsv(160, 100, 100)) == Red
    ensures ClassifyHsv(Hsv(0, 0, 39)) == Black && ClassifyHsv(Hsv(0, 0, 40)) != Black
    ensures ClassifyHsv(Hsv(50, 29, 100)) == Gray && ClassifyHsv(Hsv(50, 30, 100)) == Yellow
    ensures ClassifyHsv(Hsv(179, 255, 255)) == Red && ClassifyHsv(Hsv(180, 255, 255)) == Other
  {
  }

  // ---------------------------------------------------------------------------
  // classify_extracted_colors
  // ---------------------------------------------------------------------------

  /**
   * Names every extracted colour, keeping order, rgb and percentage.
   * The RGB-to-HSV conversion is supplied by the caller.
   */
  method ClassifyExtractedColors(extracted: seq<ExtractedColor>, rgbToHsv: Rgb -> OpenCvHsv)
    returns (classified: seq<ClassifiedColor>)
    ensures |classified| == |extracted|
    ensures forall i :: 0 <= i < |extracted| ==>
              classified[i].rgb == extracted[i].rgb
              && classified[i].percentage == extracted[i].percentage
              && classified[i].name == ClassifyHsv(rgbToHsv(extracted[i].rgb))
    ensures forall i :: 0 <= i < |classified| ==> classified[i].name in ColorNames - {Other}
  {
    classified := [];
    for i := 0 to |extracted|
      invariant |classified| == i
      invariant forall j :: 0 <= j < i ==>
                  classified[j].rgb == extracted[j].rgb
                  && classified[j].percentage == extracted[j].percentage
                  && classified[j].name == ClassifyHsv(rgbToHsv(extracted[j].rgb))
      invariant forall j :: 0 <= j < i ==> classified[j].name in ColorNames - {Other}
    {
      var rgb := extracted[i].rgb;
      var percentage := extracted[i].percentage;
      var hsv := rgbToHsv(rgb);
      var name := ClassifyHsv(hsv);
      OpenCvNeverOther(hsv);
      classified := classified + [ClassifiedColor(rgb, name, percentage)];
    }
  }
}
