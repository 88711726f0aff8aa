# Fashion colour classifier: colour naming and combination advice

This project is a Dafny model of the colour-naming and styling-advice stages of a
web service that analyses garment photos. After clustering has reduced a photo to a
ranked list of dominant colours, two stages run:

- **The colour classifier** (`ColorClassifier`, `color_classifier.dfy`) converts each
  colour to OpenCV's 8-bit HSV (hue 0-179, saturation and value 0-255). It then names
  the colour with an ordered chain of threshold rules. Black, white and gray are tested
  first, then ten inclusive hue ranges. The result is one of thirteen Japanese colour
  names: 黒, 白, グレー, 赤, オレンジ, 茶, 黄, 黄緑, 緑, 青緑, 青, 紫 and その他. The
  batch form names every colour of the ranked list. It keeps the order, the rgb values
  and the percentages.
- **The combination advisor** (`ColorCombinations`, `color_combinations.dfy`) maps a
  colour name to one of four categories: ニュートラル, 暖色, 寒色 or その他. The neutral
  list is checked first. The advisor then applies a fixed set of rules to the names of
  the first two ranked colours and collects styling suggestions: a pairing with neutral
  colours, an analogous-colour hint, a contrast accent taken from a complementary-colour
  table, a mood line for warm or cool colours, a remark on particular neutral colours,
  and a neutral-plus-accent pairing. If no rule fired, a fallback message is added. The
  duplicates are then removed.

Colour names and categories are Dafny strings, as in the program. A suggestion is
modelled as a value of the datatype `Suggestion`. Each constructor is one suggestion of
the program, and its fields carry the interpolated names. `Text` gives the exact string
the program produces for it. The method `SuggestColorCombinations` builds the list of
strings step by step, as the program does. Its contract ties the set of returned strings
to `Advice`, which states each rule as a separate function over names. The program
removes duplicates with `list(set(...))`, which lists them in an unspecified order.
`SetToList` models this by picking the elements with `:|`, so the contract fixes the
element set and the absence of duplicates, but no order.

The program does all of `suggest_color_combinations` in one function. The model splits
its rule blocks into small methods (`AddNeutralPairing`, `AddAnalogous`, `AddContrast`,
`AddMood`, `AddRemark`, `AddPairing`). Each keeps the block's own if/elif chain. The
split keeps each proof obligation small.

The hue rules are also given as a lookup table, `HueTable`, with a first-match lookup,
`HueLookup`. `ClassifyMatchesTable` proves that the program's if-chain and the table
agree on every input. `HueTableShape` proves that the ten ranges are ascending,
disjoint and contiguous, and that together they span exactly 0..179. There is no gap
in the table: a hue of 0..179 that reaches the hue rules always gets a colour name, and
その他 is returned only for a hue outside 0..179. With the documented output range of
the HSV conversion, その他 can never occur (`OpenCvNeverOther`).

## Model

| member | source | states |
|---|---|---|
| `ColorClassifier.ClassifyHsv` | app/color_classifier.py:20-63 | the name is always one of the thirteen names 黒 … その他 |
| `ColorClassifier.ClassifyMatchesTable` | app/color_classifier.py:34-63 | on every input, the ordered if-chain equals the reference: black, white and gray thresholds, then first-match lookup in the ten-range hue table |
| `ColorClassifier.HueTableShape` | app/color_classifier.py:44-61 | the ten hue ranges are ascending, pairwise disjoint and contiguous, and run from 0 to 179 |
| `ColorClassifier.LookupFindsRange` | app/color_classifier.py:44-63 | in an ascending table, first-match lookup returns the name of the range that contains the hue |
| `ColorClassifier.LookupMisses` | app/color_classifier.py:62-63 | a hue in no range of the table gives その他 |
| `ColorClassifier.HueIndex` | app/color_classifier.py:44-61 | every hue 0..179 lies in one of the ten table ranges |
| `ColorClassifier.BlackExactly` | app/color_classifier.py:34-35 | the name is 黒 if and only if V < 40, whatever H and S are |
| `ColorClassifier.WhiteExactly` | app/color_classifier.py:37-38 | the name is 白 if and only if V ≥ 40, V > 200 and S < 50 |
| `ColorClassifier.GrayExactly` | app/color_classifier.py:40-41 | the name is グレー if and only if the colour is neither black nor white and S < 30 |
| `ColorClassifier.WhiteShadowsHue` | app/color_classifier.py:37-41 | a colour with V > 200 and 30 ≤ S < 50 is 白 and never reaches the hue rules |
| `ColorClassifier.HueDecides` | app/color_classifier.py:44-63 | once past the black, white and gray rules, the name is the hue-table entry for H |
| `ColorClassifier.RedExactly` | app/color_classifier.py:44-45 | the name is 赤 if and only if the hue rules are reached and H is in 0-10 or 160-179 |
| `ColorClassifier.OtherExactly` | app/color_classifier.py:62-63 | the name is その他 if and only if the hue rules are reached and H is outside 0..179 |
| `ColorClassifier.OpenCvNeverOther` | app/color_classifier.py:13-63 | for HSV inside OpenCV's ranges (H ≤ 179, S, V ≤ 255) the name is one of the twelve names other than その他 |
| `ColorClassifier.Boundaries` | app/color_classifier.py:34-61 | H=10 gives 赤 and H=11 gives オレンジ; H=159 gives 紫 and H=160 gives 赤; V=39 gives 黒 and V=40 does not; S=29 gives グレー and S=30 goes to the hue rules when V ≤ 200; H=179 gives 赤 and H=180 gives その他 |
| `ColorClassifier.ClassifyExtractedColors` | app/color_classifier.py:65-88 | the output has the input's length; entry i keeps entry i's rgb and percentage, and its name is the classification of the converted rgb; no name is その他 |
| `ColorCombinations.GetColorCategory` | app/color_combinations.py:2-18 | the category is one of ニュートラル, 暖色, 寒色 and その他 |
| `ColorCombinations.CategoryExactly` | app/color_combinations.py:7-18 | each category holds exactly when the name is in its list and in none of the lists checked before it; a name in no list is その他 |
| `ColorCombinations.BrownIsNeutral` | app/color_combinations.py:7-12 | 茶 is in the warm list but is classed ニュートラル, because the neutral list is checked first |
| `ColorCombinations.ClassifierNamesCategory` | app/color_combinations.py:7-18 | of the classifier's names only その他 gets category その他; 黒, 白, グレー and 茶 are neutral; 赤, オレンジ and 黄 are warm; the five blue and green names are cool |
| `ColorCombinations.AddNeutralPairing` | app/color_combinations.py:43-44 | appends the neutral-pairing text exactly when the main name is not 黒, 白 or グレー |
| `ColorCombinations.AddAnalogous` | app/color_combinations.py:47-54 | appends the analogous hint for 赤, 青, 黄 or 緑 and nothing for other names |
| `ColorCombinations.AddContrast` | app/color_combinations.py:58-67 | appends the contrast text with the main name's complementary-table entry, when there is one |
| `ColorCombinations.AddMood` | app/color_combinations.py:70-73 | appends the warm mood for 暖色, the cool mood for 寒色, nothing otherwise |
| `ColorCombinations.AddRemark` | app/color_combinations.py:76-83 | appends the canned remark for 黒, 白, グレー or ベージュ and nothing for other names |
| `ColorCombinations.AddPairing` | app/color_combinations.py:86-95 | with a second colour, appends the neutral-first or the accent-first pairing text when exactly one of the two leading colours is neutral |
| `ColorCombinations.SetToList` | app/color_combinations.py:101 | lists every element of the set once, in no promised order |
| `ColorCombinations.SuggestColorCombinations` | app/color_combinations.py:20-101 | an empty input gives exactly the one "no colours detected" message; otherwise the returned strings are exactly the texts of the advice, with no duplicates |
| `ColorCombinations.EmptyInputAdvice` | app/color_combinations.py:31-32 | the advice for an empty list is only 画像から色を検出できませんでした。 |
| `ColorCombinations.NonEmptyNeverFallsBack` | app/color_combinations.py:43-98 | for a non-empty input some rule always fires: the neutral pairing, or the remark for 黒, 白 and グレー; so the fallback at lines 97-98 is never taken |
| `ColorCombinations.FallbackTextIsDistinct` | app/color_combinations.py:97-98 | the fallback text differs from every other suggestion text, whatever names are put into it |
| `ColorCombinations.FallbackTextNeverShown` | app/color_combinations.py:97-101 | for a non-empty input the result is non-empty and never contains the fallback text |
| `ColorCombinations.AdviceReadsOnlyLeadingNames` | app/color_combinations.py:35-95 | two inputs whose first two names agree, and whose lengths agree on being empty and on having a second colour, get the same advice; rgb, percentage and colours after the second are ignored |
| `ColorCombinations.NeutralPairingExactly` | app/color_combinations.py:43-44 | a neutral-pairing suggestion is present if and only if it names the main colour and that colour is not 黒, 白 or グレー |
| `ColorCombinations.RemarkExactly` | app/color_combinations.py:76-83 | a canned remark is present if and only if the main colour is 黒, 白, グレー or ベージュ |
| `ColorCombinations.PairingExactly` | app/color_combinations.py:86-95 | the neutral-first pairing is present if and only if there is a second colour, the main one is neutral and the second is not; the accent-first pairing likewise with the roles swapped |
| `ColorCombinations.ContrastExactly` | app/color_combinations.py:58-67 | a contrast suggestion is present if and only if it pairs the main colour with that colour's complementary-table entry |
| `ColorCombinations.ComplementaryTableShape` | app/color_combinations.py:58-64 | 赤↔緑, 青↔オレンジ and 黄↔紫 are mutual; 茶→青緑 and ピンク→緑 have no reverse entry |
| `ColorCombinations.TealMainAdvice` | app/color_combinations.py:43-95 | a 青緑 main colour gets the neutral pairing, the cool mood and possibly the accent pairing, and no contrast suggestion |
| `ColorCombinations.BrownMainAdvice` | app/color_combinations.py:43-95 | a 茶 main colour gets the neutral pairing and the 青緑 contrast, and no warm mood, because 茶 is neutral |
| `ColorCombinations.ClassifierNamesSkipBeigeAndPink` | app/color_combinations.py:58-83 | when every name comes from the classifier, the ベージュ remark and the ピンク contrast never appear, and neither does the fallback |
| `ColorCombinations.SampleAdvice` | app/color_combinations.py:106-110 | the sample [赤, 白, グレー] gets exactly the 赤 neutral pairing, the 赤 analogous hint, the 赤→緑 contrast, the warm mood and 赤に白を合わせると…, and no 黒, 白 or グレー remark |
| `ColorCombinations.SampleTexts` | app/color_combinations.py:101-110 | the five texts for the sample are pairwise distinct, so removing duplicates keeps all five |

## Left out

- Extraction of dominant colours (`extract_dominant_colors`): it clusters with scikit-learn's mini-batch k-means, resizes with OpenCV and rounds floating-point percentages. The model starts from its output, `ExtractedColor`.
- The RGB-to-HSV conversion (`rgb_to_hsv`) wraps OpenCV's `cvtColor`. `ClassifyExtractedColors` takes it as a function parameter whose result type carries the documented ranges (H 0-179, S and V 0-255). OpenCV's fixed-point arithmetic is not modelled.
- Percentages are `real` values that are only passed through; their rounding and the sum to 100 belong to extraction.
- The clothing-area step (`identify_clothing_area`) returns its input unchanged and is not modelled.
- The web layer (`app/main.py`): upload handling, image decoding, the HTML page and the JSON response.
- The program reads the main colour's rgb (`main_color_rgb`) and never uses it. The model does not read it; `AdviceReadsOnlyLeadingNames` states that the rgb has no effect.
- Input records missing a `name` or `rgb` key would raise an error in the program. The model's records always have both fields.
- The order of the returned suggestions is unspecified in the program and is left unspecified in the model.
