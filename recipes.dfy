/**
 The ingredient handling behind the quick suggestions on the home tab and the
 leftover recipe generator: the comma-separated input is split, each piece is
 stripped, blank pieces are dropped, and the first entries are padded with
 fillers to the "base" the recipe cards are built from. Also the record a
 saved favourite recipe is.
 */
module Recipes {
  import opened Text

  /** The fillers appended after one or two ingredients, position by position. */
  const Fillers: seq<string> := ["veggies", "spices"]

  /** A favourite recipe as saved from a recipe card. */
  datatype Recipe = Recipe(name: string, ingredients: string, instructions: string, time: string, difficulty: string)

  /** What pressing the button yields for a given input. */
  datatype Suggestion =
    | Blank               // the input is empty after strip(): "Please enter ingredients."
    | NoValidIngredients  // no piece survives: "Please enter valid ingredients."
    | Base(base: seq<string>)

  /** The characters that can never start an ingredient. */
  predicate OnlySpacesAndCommas(s: string) {
    forall k :: 0 <= k < |s| ==> IsSpace(s[k]) || s[k] == ','
  }

  /** One piece stripped, or nothing if it is blank. */
  function KeepPiece(piece: string): (kept: seq<string>)
    ensures |kept| <= 1
    ensures kept == [] <==> AllSpace(piece)
    ensures kept != [] ==> kept[0] == Strip(piece) && kept[0] != "" && Trimmed(kept[0])
  {
    var s := Strip(piece);
    if s == "" then [] else [s]
  }

  /** The stripped pieces that are not blank, in order. */
  function KeepNonBlank(pieces: seq<string>): (items: seq<string>)
    ensures |items| <= |pieces|
    ensures forall k :: 0 <= k < |items| ==> items[k] != "" && Trimmed(items[k])
  {
    if pieces == [] then [] else KeepPiece(pieces[0]) + KeepNonBlank(pieces[1..])
  }

  /** `[x.strip() for x in raw.split(",") if x.strip()]` */
  function ParseIngredients(raw: string): (items: seq<string>)
    ensures forall k :: 0 <= k < |items| ==> items[k] != "" && Trimmed(items[k])
  {
    KeepNonBlank(Split(raw, ','))
  }

  lemma {:induction false} KeepNonBlankConcat(p: seq<string>, q: seq<string>)
    ensures KeepNonBlank(p + q) == KeepNonBlank(p) + KeepNonBlank(q)
  {
    if p == [] {
      assert p + q == q;
    } else {
      assert (p + q)[0] == p[0] && (p + q)[1..] == p[1..] + q;
      KeepNonBlankConcat(p[1..], q);
    }
  }

  /** Pieces already free of separators yield entries free of separators. */
  lemma {:induction false} KeepNonBlankNoComma(pieces: seq<string>)
    requires forall k :: 0 <= k < |pieces| ==> ',' !in pieces[k]
    ensures forall k :: 0 <= k < |KeepNonBlank(pieces)| ==> ',' !in KeepNonBlank(pieces)[k]
  {
    if pieces != [] {
      KeepNonBlankNoComma(pieces[1..]);
      if ',' in Strip(pieces[0]) {
        StripSubstring(pieces[0], ',');
      }
    }
  }

  /** Every parsed entry is non-empty, has no surrounding whitespace and holds no comma. */
  lemma ParsedEntries(raw: string)
    ensures forall k :: 0 <= k < |ParseIngredients(raw)| ==>
      var e := ParseIngredients(raw)[k]; e != "" && Strip(e) == e && ',' !in e
  {
    var items := ParseIngredients(raw);
    KeepNonBlankNoComma(Split(raw, ','));
    forall k | 0 <= k < |items| ensures Strip(items[k]) == items[k] {
      StripTrimmed(items[k]);
    }
  }

  /** Input order is kept: what stands before a comma comes first. */
  lemma ParseAtComma(a: string, b: string)
    ensures ParseIngredients(a + [','] + b) == ParseIngredients(a) + ParseIngredients(b)
  {
    SplitConcat(a, b, ',');
    KeepNonBlankConcat(Split(a, ','), Split(b, ','));
  }

  /** Without a comma the input is one ingredient, or none if it is blank. */
  lemma ParseWithoutComma(s: string)
    requires ',' !in s
    ensures ParseIngredients(s) == if AllSpace(s) then [] else [Strip(s)]
  {
    SplitNoSeparator(s, ',');
    assert [s][1..] == [];
  }

  /** The input yields no ingredient exactly when it holds nothing but whitespace and commas. */
  lemma {:induction false} ParseEmptyIff(s: string)
    ensures ParseIngredients(s) == [] <==> OnlySpacesAndCommas(s)
    decreases |s|
  {
    if ',' in s {
      var i :| 0 <= i < |s| && s[i] == ',';
      var a, b := s[..i], s[i + 1..];
      assert s == a + [','] + b;
      ParseAtComma(a, b);
      ParseEmptyIff(a);
      ParseEmptyIff(b);
      OnlySpacesAndCommasAt(s, i);
    } else {
      ParseWithoutComma(s);
      assert OnlySpacesAndCommas(s) <==> AllSpace(s);
    }
  }

  lemma OnlySpacesAndCommasAt(s: string, i: nat)
    requires i < |s| && s[i] == ','
    ensures OnlySpacesAndCommas(s) <==> OnlySpacesAndCommas(s[..i]) && OnlySpacesAndCommas(s[i + 1..])
  {
    var a, b := s[..i], s[i + 1..];
    if OnlySpacesAndCommas(a) && OnlySpacesAndCommas(b) {
      forall k | 0 <= k < |s| ensures IsSpace(s[k]) || s[k] == ',' {
        if k < i { assert s[k] == a[k]; } else if k > i { assert s[k] == b[k - i - 1]; }
      }
    }
  }

  /** Parsing a comma-joined list of proper ingredients gives the list back. */
  lemma {:induction false} ParseJoined(items: seq<string>)
    requires forall k :: 0 <= k < |items| ==> items[k] != "" && Trimmed(items[k]) && ',' !in items[k]
    ensures ParseIngredients(Join(items, [','])) == items
  {
    if items == [] {
      assert Split("", ',') == [""];
      assert KeepPiece("") == [];
      assert KeepNonBlank([""]) == KeepPiece("") + KeepNonBlank([]);
    } else {
      SplitJoin(items, ',');
      KeepAllProper(items);
    }
  }

  lemma {:induction false} KeepAllProper(items: seq<string>)
    requires forall k :: 0 <= k < |items| ==> items[k] != "" && Trimmed(items[k])
    ensures KeepNonBlank(items) == items
  {
    if items != [] {
      StripTrimmed(items[0]);
      KeepAllProper(items[1..]);
      assert [items[0]] + items[1..] == items;
    }
  }

  /**
   `items[:3] if len(items) >= 3 else items + ["veggies", "spices"][len(items):]`:
   the ingredients keep their positions and fillers take the positions left.
   */
  function PadBase(items: seq<string>): (base: seq<string>)
    ensures |base| == if |items| >= 3 then 3 else 2
    ensures forall k :: 0 <= k < |base| ==> base[k] == if k < |items| then items[k] else Fillers[k]
  {
    if |items| >= 3 then items[..3] else items + Fillers[|items|..]
  }

  /** The three cases of the padding, written out. */
  lemma PadBaseCases(items: seq<string>)
    requires items != []
    ensures |items| >= 3 ==> PadBase(items) == items[..3]
    ensures |items| == 2 ==> PadBase(items) == items
    ensures |items| == 1 ==> PadBase(items) == [items[0], "spices"]
  {
    var base := PadBase(items);
    if |items| == 1 {
      assert base[1] == Fillers[1];
    }
  }

  /**
   The "Generate Recipes" button: a blank input and an input without any
   ingredient are refused with their own warnings; otherwise the cards are
   built from a base of two or three entries led by the first ingredient.
   */
  function Suggest(raw: string): (r: Suggestion)
    ensures r.Blank? <==> AllSpace(raw)
    ensures r.NoValidIngredients? <==> !AllSpace(raw) && OnlySpacesAndCommas(raw)
    ensures r.Base? ==> ParseIngredients(raw) != [] && 2 <= |r.base| <= 3 && r.base[0] == ParseIngredients(raw)[0]
    ensures r.Base? ==> r.base == PadBase(ParseIngredients(raw))
  {
    ParseEmptyIff(raw);
    if Strip(raw) == "" then Blank
    else
      var items := ParseIngredients(raw);
      if items == [] then NoValidIngredients else Base(PadBase(items))
  }
}
