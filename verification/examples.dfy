/** Worked instances of the behaviour the model captures. */
module Examples {
  import opened Wrappers
  import opened Ast
  import opened Dicts
  import opened Signature
  import opened Walker
  import opened Completions

  /** The parameters of `function add(a, b = 1)`. */
  lemma AddArgs()
    ensures KeptArgs([Identifier("a"), AssignmentPattern(Identifier("b"))]) == ["a", "b"]
  {
    var params := [Identifier("a"), AssignmentPattern(Identifier("b"))];
    assert params[1..] == [AssignmentPattern(Identifier("b"))] && params[1..][1..] == [];
  }

  lemma AddPlaceholders()
    ensures Join(Placeholders(["a", "b"], 1), ", ") == "${1:a}, ${2:b}"
  {
    assert DigitChar(1) == '1' && DigitChar(2) == '2';
    assert Placeholder(1, "a") == "${1:a}" && Placeholder(2, "b") == "${2:b}";
    assert Placeholders(["a", "b"], 1) == ["${1:a}", "${2:b}"] by {
      assert ["a", "b"][1..] == ["b"] && ["b"][1..] == [];
    }
    assert ["${1:a}", "${2:b}"][1..] == ["${2:b}"];
  }

  lemma AddLabelArgs()
    ensures Join(["a", "b"], ", ") == "a, b"
  {
    assert ["a", "b"][1..] == ["b"];
  }

  /** `export function add(a, b = 1) {}` */
  lemma AddExample()
    ensures FormatFunction("math.js", "add", [Identifier("a"), AssignmentPattern(Identifier("b"))])
         == Entry("add(a, b)\tmath.js", "add(${1:a}, ${2:b})")
  {
    AddArgs();
    AddPlaceholders();
    AddLabelArgs();
    assert "add" + "(" + "a, b" + ")\t" + "math.js" == "add(a, b)\tmath.js";
    assert "add" + "(" + "${1:a}, ${2:b}" + ")" == "add(${1:a}, ${2:b})";
  }

  /** `export function f({x, y}) {}`: the destructured parameter is dropped. */
  lemma DestructuredExample()
    ensures FormatFunction("m.js", "f", [Other]) == Entry("f()\tm.js", "f()")
  {
    NoKeptArgs("m.js", "f", [Other]);
  }

  /** The one assignment `export const PI = 3.14;` makes. */
  lemma PiBindings()
    ensures Bindings([ExportNamedDeclaration(Some(VariableDeclaration([VariableDeclarator(Identifier("PI"), Some(Other))])))], "m.js")
         == [("PI", Entry("PI\tm.js", "PI"))]
  {
    var d := VariableDeclarator(Identifier("PI"), Some(Other));
    var s := ExportNamedDeclaration(Some(VariableDeclaration([d])));
    assert [d][..0] == [] && [s][..0] == [];
    assert DeclaratorEntry(d, "m.js") == Entry("PI\tm.js", "PI");
  }

  /** `export const PI = 3.14;` */
  lemma PiExample()
    ensures Exports([ExportNamedDeclaration(Some(VariableDeclaration([VariableDeclarator(Identifier("PI"), Some(Other))])))], "m.js")
         == Ok(Dict(["PI"], map["PI" := Entry("PI\tm.js", "PI")]))
  {
    PiBindings();
    var ps := [("PI", Entry("PI\tm.js", "PI"))];
    assert ps[..0] == [];
    assert FromPairs(ps) == Dict(["PI"], map["PI" := Entry("PI\tm.js", "PI")]);
  }

  /** Exports `foo`, `foobar`, `bar` and the prefix `foo` give `foo` and `foobar`, in that order. */
  lemma PrefixExample(a: Entry, b: Entry, c: Entry)
    ensures Matching(Dict(["foo", "foobar", "bar"], map["foo" := a, "foobar" := b, "bar" := c]),
                     ["foo", "foobar", "bar"], "foo") == [a, b]
  {
    var d := Dict(["foo", "foobar", "bar"], map["foo" := a, "foobar" := b, "bar" := c]);
    var ks := ["foo", "foobar", "bar"];
    assert ks[..2] == ["foo", "foobar"] && ks[..2][..1] == ["foo"] && ks[..2][..1][..0] == [];
    assert !StartsWith("bar", "foo") by { assert "bar"[0] != "foo"[0]; }
    assert StartsWith("foobar", "foo") by { assert "foobar"[..3] == "foo"; }
    assert StartsWith("foo", "foo") by { assert "foo"[..3] == "foo"; }
    assert Matching(d, ["foo"], "foo") == [a];
    assert Matching(d, ["foo", "foobar"], "foo") == [a, b];
  }

  /** `imp.` with `import` the only known alias suggests the module `import`. */
  lemma FallbackExample(path: string)
    ensures Contribution(Dict(["import"], map["import" := path]), Some(Token("imp", "")), Empty())
         == [Entry("import.js\tmodule", "import")]
  {
    assert ["import"][..0] == [];
    assert "import"[..3] == "imp";
    assert ModuleSuggestion("import") == Entry("import.js\tmodule", "import");
  }
}
