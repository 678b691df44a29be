/** What SourceGenerator.generate of the default-recipes generator emits,
    apart from the text of the templates: one function declaration and one
    function definition per language, one table row per recipe, the table
    size, and in each language's DefaultRecipesSet<lang> function one name
    copy (a "setter") per recipe that carries a name in that language. */
module DefaultRecipesGenerate {
  import opened Wrappers
  import opened XmlTree
  import Seqs
  import opened DefaultRecipesConfig

  /** One strncpy line of a DefaultRecipesSet<lang> function: the table row
      it writes and the name it copies there. */
  type Setter = (nat, Key)

  /** The setters one recipe contributes for `lang`: one for every key of
      its names dict equal to `lang`, copying the value stored under it. */
  function Setters(id: nat, names: Dict, lang: Key): (r: seq<Setter>)
    ensures |r| <= |names|
    decreases |names|
  {
    if names == [] then []
    else
      var init, last := names[..|names| - 1], names[|names| - 1];
      Setters(id, init, lang) + (if last.0 == lang then [(id, last.1)] else [])
  }

  /** A recipe's setters for `lang` are exactly its (lang, name) entries. */
  lemma {:induction false} SettersMembers(id: nat, names: Dict, lang: Key)
    ensures forall x :: x in Setters(id, names, lang) <==> x.0 == id && (lang, x.1) in names
    decreases |names|
  {
    if names != [] {
      var init, last := names[..|names| - 1], names[|names| - 1];
      SettersMembers(id, init, lang);
      assert names == init + [last];
    }
  }

  /** The setters of DefaultRecipesSet<lang>: those of each recipe, in the
      order of the recipes. */
  function LangSetters(rs: seq<Recipe>, lang: Key): (r: seq<Setter>)
    decreases |rs|
  {
    if rs == [] then []
    else LangSetters(rs[..|rs| - 1], lang) + Setters(rs[|rs| - 1].id, rs[|rs| - 1].names, lang)
  }

  /** A language's function copies a name into a row exactly when a recipe
      with that row's id holds the name under the language. */
  lemma {:induction false} LangSettersMembers(rs: seq<Recipe>, lang: Key)
    ensures forall x :: x in LangSetters(rs, lang) <==>
      exists i :: 0 <= i < |rs| && x.0 == rs[i].id && (lang, x.1) in rs[i].names
    decreases |rs|
  {
    if rs != [] {
      var init, last := rs[..|rs| - 1], rs[|rs| - 1];
      LangSettersMembers(init, lang);
      SettersMembers(last.id, last.names, lang);
      forall x
        ensures x in LangSetters(rs, lang) <==> exists i :: 0 <= i < |rs| && x.0 == rs[i].id && (lang, x.1) in rs[i].names
      {
        if x in LangSetters(init, lang) {
          var i :| 0 <= i < |init| && x.0 == init[i].id && (lang, x.1) in init[i].names;
          assert rs[i] == init[i];
        }
        if exists i :: 0 <= i < |rs| && x.0 == rs[i].id && (lang, x.1) in rs[i].names {
          var i :| 0 <= i < |rs| && x.0 == rs[i].id && (lang, x.1) in rs[i].names;
          if i < |init| {
            assert init[i] == rs[i];
          }
        }
      }
    }
  }

  /** A names dict without the language contributes no setter. */
  lemma NoSetters(id: nat, names: Dict, lang: Key)
    requires lang !in Keys(names)
    ensures Setters(id, names, lang) == []
  {
    SettersMembers(id, names, lang);
  }

  /** A names dict that repeats no language contributes at most one
      setter per language. */
  lemma {:induction false} AtMostOneSetter(id: nat, names: Dict, lang: Key)
    requires Seqs.Distinct(Keys(names))
    ensures |Setters(id, names, lang)| <= 1
    decreases |names|
  {
    if names != [] {
      var init, last := names[..|names| - 1], names[|names| - 1];
      assert Keys(init) == Keys(names)[..|init|];
      AtMostOneSetter(id, init, lang);
      if last.0 == lang {
        assert forall k :: 0 <= k < |init| ==> Keys(init)[k] == Keys(names)[k];
        NoSetters(id, init, lang);
      }
    }
  }

  /** With dicts that repeat no language, a language's function has at most
      one setter per recipe. */
  lemma {:induction false} SettersPerRecipe(rs: seq<Recipe>, lang: Key)
    requires forall i :: 0 <= i < |rs| ==> Seqs.Distinct(Keys(rs[i].names))
    ensures |LangSetters(rs, lang)| <= |rs|
    decreases |rs|
  {
    if rs != [] {
      var init, last := rs[..|rs| - 1], rs[|rs| - 1];
      SettersPerRecipe(init, lang);
      AtMostOneSetter(last.id, last.names, lang);
    }
  }

  /** A recipe as read holds its default name under "EN" first and under
      no other key "EN", so it contributes exactly one English setter. */
  lemma EnglishSetter(r: Recipe, langs: seq<Key>)
    requires RecipeOk(r, langs)
    ensures Setters(r.id, r.names, English) == [(r.id, r.defaultName)]
  {
    var names := r.names;
    assert names == [names[0]] + names[1..];
    assert English !in Keys(names[1..]);
    SettersSplit(r.id, [names[0]], names[1..], English);
    NoSetters(r.id, names[1..], English);
    assert [names[0]][..0] == [];
  }

  /** DefaultRecipesSetEN copies every recipe's default name back into its
      row, in the order of the recipes. */
  lemma {:induction false} EnglishSetters(rs: seq<Recipe>, langs: seq<Key>)
    requires forall i :: 0 <= i < |rs| ==> RecipeOk(rs[i], langs)
    ensures var r := LangSetters(rs, English);
      |r| == |rs| && forall i :: 0 <= i < |rs| ==> r[i] == (rs[i].id, rs[i].defaultName)
    decreases |rs|
  {
    if rs != [] {
      var init, last := rs[..|rs| - 1], rs[|rs| - 1];
      EnglishSetters(init, langs);
      EnglishSetter(last, langs);
      assert forall i :: 0 <= i < |init| ==> init[i] == rs[i];
    }
  }

  /** The setters of a concatenated dict are those of its parts. */
  lemma {:induction false} SettersSplit(id: nat, a: Dict, b: Dict, lang: Key)
    ensures Setters(id, a + b, lang) == Setters(id, a, lang) + Setters(id, b, lang)
    decreases |b|
  {
    if b == [] {
      assert a + b == a;
    } else {
      var init, last := b[..|b| - 1], b[|b| - 1];
      assert (a + b)[..|a + b| - 1] == a + init;
      assert (a + b)[|a + b| - 1] == last;
      SettersSplit(id, a, init, lang);
    }
  }

  /** When the ids are the row positions, as after reading into a fresh
      Configuration, every setter writes a row of the table. */
  lemma SettersInTable(rs: seq<Recipe>, lang: Key)
    requires forall i :: 0 <= i < |rs| ==> rs[i].id == i
    ensures forall x :: x in LangSetters(rs, lang) ==> x.0 < |rs|
  {
    LangSettersMembers(rs, lang);
  }

  /** After a successful read into a fresh Configuration: the table has one
      row per Recipe element, every setter of every language writes a row
      of it, and DefaultRecipesSetEN writes each element's Name into the
      row at its position. */
  lemma FreshGenerate(root: Element, lang: Key)
    ensures var r := ReadSpec(([], [English]), root);
      var es := Iter(root, "Recipe");
      r.1.None? ==>
        && |r.0.0| == |es|
        && (forall x :: x in LangSetters(r.0.0, lang) ==> x.0 < |es|)
        && |LangSetters(r.0.0, English)| == |es|
        && (forall i :: 0 <= i < |es| ==> LangSetters(r.0.0, English)[i] == (i, Get(es[i], "Name")))
  {
    var es := Iter(root, "Recipe");
    var r := ReadSpec(([], [English]), root);
    FreshRunShape([English], es);
    ReadKeeps(([], [English]), root);
    if r.1.None? {
      SettersInTable(r.0.0, lang);
      EnglishSetters(r.0.0, r.0.1);
    }
  }

  /** One DefaultRecipesSet<lang> function of the generated source. */
  datatype Definition = Definition(lang: Key, setters: seq<Setter>)

  /** What generate writes: the declarations of the header, and the table
      size, the rows and the function definitions of the source. */
  datatype Output = Output(declarations: seq<Key>, nRecipes: nat, rows: seq<Recipe>, definitions: seq<Definition>)

  class SourceGenerator {
    const config: Configuration

    constructor(config: Configuration)
      ensures this.config == config
    {
      this.config := config;
    }

    /** The setters of one language, collected as the two nested loops over
        the recipes and their names dicts do. */
    static method CollectSetters(rs: seq<Recipe>, lang: Key) returns (setters: seq<Setter>)
      ensures setters == LangSetters(rs, lang)
    {
      setters := [];
      var i := 0;
      while i < |rs|
        invariant 0 <= i <= |rs|
        invariant setters == LangSetters(rs[..i], lang)
      {
        var names := rs[i].names;
        ghost var before := setters;
        var j := 0;
        while j < |names|
          invariant 0 <= j <= |names|
          invariant setters == before + Setters(rs[i].id, names[..j], lang)
        {
          assert names[..j + 1][..j] == names[..j];
          if names[j].0 == lang {
            setters := setters + [(rs[i].id, names[j].1)];
          }
          j := j + 1;
        }
        assert names[..j] == names;
        assert rs[..i + 1][..i] == rs[..i];
        i := i + 1;
      }
      assert rs[..i] == rs;
    }

    /** generate: one declaration per language, one row per recipe, the
        number of recipes, and one definition per language holding that
        language's setters. The declaration and row loops stand for the
        template loops that emit one line per language and per recipe; only
        the definitions loop computes something, through CollectSetters. */
    method Generate() returns (out: Output)
      ensures out.declarations == config.langs
      ensures out.nRecipes == |config.recipes| && out.rows == config.recipes
      ensures |out.definitions| == |config.langs|
      ensures forall i :: 0 <= i < |config.langs| ==>
        out.definitions[i] == Definition(config.langs[i], LangSetters(config.recipes, config.langs[i]))
    {
      var langs, recipes := config.langs, config.recipes;
      var declarations := [];
      var k := 0;
      while k < |langs|
        invariant 0 <= k <= |langs|
        invariant declarations == langs[..k]
      {
        assert langs[..k + 1] == langs[..k] + [langs[k]];
        declarations := declarations + [langs[k]];
        k := k + 1;
      }
      var rows := [];
      k := 0;
      while k < |recipes|
        invariant 0 <= k <= |recipes|
        invariant rows == recipes[..k]
      {
        assert recipes[..k + 1] == recipes[..k] + [recipes[k]];
        rows := rows + [recipes[k]];
        k := k + 1;
      }
      var definitions := [];
      k := 0;
      while k < |langs|
        invariant 0 <= k <= |langs|
        invariant |definitions| == k
        invariant forall i :: 0 <= i < k ==> definitions[i] == Definition(langs[i], LangSetters(recipes, langs[i]))
      {
        var setters := CollectSetters(recipes, langs[k]);
        definitions := definitions + [Definition(langs[k], setters)];
        k := k + 1;
      }
      assert langs[..|langs|] == langs && recipes[..|recipes|] == recipes;
      out := Output(declarations, |recipes|, rows, definitions);
    }
  }
}
