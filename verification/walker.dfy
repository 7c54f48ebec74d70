/**
 * The export walker: from a module's top-level statements to the ordered map
 * from exported name to completion entry.
 *
 * `Bindings` lists, in source order, every (name, entry) assignment the walk
 * makes; `Exports` is the dictionary those assignments build. `WalkExports`
 * is the walk itself, statement by statement and declarator by declarator.
 */
module Walker {
  import opened Wrappers
  import opened Ast
  import opened Dicts
  import opened Signature
  import opened Errors

  type ExportMap = Dict<string, Entry>

  /** A declarator the walker can name: its binding target is an identifier. */
  predicate DeclaratorShaped(d: Node)
  {
    d.VariableDeclarator? ==> d.id.Identifier?
  }

  /** A statement whose exported bindings all have identifier targets. */
  predicate StatementShaped(s: Node)
  {
    match s
    case ExportNamedDeclaration(Some(FunctionDeclaration(id, _))) => id.Identifier?
    case ExportNamedDeclaration(Some(VariableDeclaration(ds))) =>
      forall i :: 0 <= i < |ds| ==> DeclaratorShaped(ds[i])
    case _ => true
  }

  predicate AllShaped(body: seq<Node>)
  {
    forall i :: 0 <= i < |body| ==> StatementShaped(body[i])
  }

  /** The entry of a non-callable export: `name<TAB>module`, inserting the bare name. */
  function ValueEntry(moduleName: string, name: string): Entry
  {
    Entry(name + "\t" + moduleName, name)
  }

  /** What one declarator of an exported variable declaration assigns. */
  function DeclaratorBindings(d: Node, moduleName: string): seq<(string, Entry)>
    requires DeclaratorShaped(d)
  {
    if d.VariableDeclarator? then [(d.id.name, DeclaratorEntry(d, moduleName))] else []
  }

  /** The entry of a declarator: a call template for an arrow-function initialiser, the bare name otherwise. */
  function DeclaratorEntry(d: Node, moduleName: string): Entry
    requires d.VariableDeclarator? && d.id.Identifier?
  {
    if d.init.Some? && d.init.value.ArrowFunctionExpression? then
      FormatFunction(moduleName, d.id.name, d.init.value.params)
    else
      ValueEntry(moduleName, d.id.name)
  }

  /** What the declarators of one exported variable declaration assign, in order. */
  function DeclarationBindings(ds: seq<Node>, moduleName: string): seq<(string, Entry)>
    requires forall i :: 0 <= i < |ds| ==> DeclaratorShaped(ds[i])
  {
    if ds == [] then []
    else DeclarationBindings(ds[..|ds| - 1], moduleName) + DeclaratorBindings(ds[|ds| - 1], moduleName)
  }

  /** What one top-level statement assigns. */
  function StatementBindings(s: Node, moduleName: string): seq<(string, Entry)>
    requires StatementShaped(s)
  {
    match s
    case ExportNamedDeclaration(Some(FunctionDeclaration(id, params))) =>
      [(id.name, FormatFunction(moduleName, id.name, params))]
    case ExportNamedDeclaration(Some(VariableDeclaration(ds))) =>
      DeclarationBindings(ds, moduleName)
    case _ => []
  }

  /** What the whole body assigns, in source order. */
  function Bindings(body: seq<Node>, moduleName: string): seq<(string, Entry)>
    requires AllShaped(body)
  {
    if body == [] then []
    else Bindings(body[..|body| - 1], moduleName) + StatementBindings(body[|body| - 1], moduleName)
  }

  /** The export map of a module, or the failure of a binding target the walker cannot name. */
  function Exports(body: seq<Node>, moduleName: string): Result<ExportMap, Error>
  {
    if AllShaped(body) then Ok(FromPairs(Bindings(body, moduleName))) else Err(UnexpectedShape)
  }

  /** The walk over the module's top-level statements. */
  method WalkExports(program: Program, moduleName: string) returns (r: Result<ExportMap, Error>)
    ensures r == Exports(program.body, moduleName)
  {
    var body := program.body;
    var completions: ExportMap := Empty();
    var i := 0;
    while i < |body|
      invariant 0 <= i <= |body|
      invariant AllShaped(body[..i])
      invariant completions == FromPairs(Bindings(body[..i], moduleName))
    {
      var node := body[i];
      WalkStep(body, i, moduleName);
      var next := WalkStatement(completions, node, moduleName, Bindings(body[..i], moduleName));
      if next.None? {
        return Err(UnexpectedShape);
      }
      completions := next.value;
      i := i + 1;
    }
    assert body[..i] == body;
    return Ok(completions);
  }

  /** How one more statement extends the walked prefix of the body. */
  lemma WalkStep(body: seq<Node>, i: nat, moduleName: string)
    requires i < |body| && AllShaped(body[..i])
    ensures !StatementShaped(body[i]) ==> !AllShaped(body)
    ensures StatementShaped(body[i]) ==>
      && AllShaped(body[..i + 1])
      && Bindings(body[..i + 1], moduleName) == Bindings(body[..i], moduleName) + StatementBindings(body[i], moduleName)
  {
    assert body[..i + 1] == body[..i] + [body[i]];
    AllShapedSnoc(body[..i], body[i]);
  }

  /**
   * One step of the walk: what one top-level statement adds to the map built
   * so far from the assignments `before`; `None` when an exported binding
   * target is not an identifier.
   */
  method WalkStatement(completions: ExportMap, node: Node, moduleName: string, ghost before: seq<(string, Entry)>)
    returns (r: Option<ExportMap>)
    requires completions == FromPairs(before)
    ensures r.Some? <==> StatementShaped(node)
    ensures r.Some? ==> r.value == FromPairs(before + StatementBindings(node, moduleName))
  {
    r := Some(completions);
    if node.ExportNamedDeclaration? && node.declaration.Some? {
      var decl := node.declaration.value;
      if decl.FunctionDeclaration? {
        if !decl.id.Identifier? {
          return None;
        }
        var name := decl.id.name;
        var e := FormatFunction(moduleName, name, decl.params);
        assert StatementBindings(node, moduleName) == [(name, e)];
        FromPairsSnoc(before, (name, e));
        r := Some(completions.Put(name, e));
      } else if decl.VariableDeclaration? {
        r := WalkDeclarators(completions, decl.declarations, moduleName, before);
      } else {
        assert before + StatementBindings(node, moduleName) == before;
      }
    } else {
      assert before + StatementBindings(node, moduleName) == before;
    }
  }

  /**
   * The inner walk over the declarators of one exported variable declaration,
   * continuing the map built so far from the assignments `before`; `None` when
   * a declarator's target is not an identifier.
   */
  method WalkDeclarators(completions: ExportMap, ds: seq<Node>, moduleName: string, ghost before: seq<(string, Entry)>)
    returns (r: Option<ExportMap>)
    requires completions == FromPairs(before)
    ensures r.Some? <==> forall k :: 0 <= k < |ds| ==> DeclaratorShaped(ds[k])
    ensures r.Some? ==> r.value == FromPairs(before + DeclarationBindings(ds, moduleName))
  {
    var acc := completions;
    var j := 0;
    assert before + DeclarationBindings(ds[..0], moduleName) == before;
    while j < |ds|
      invariant 0 <= j <= |ds|
      invariant forall k :: 0 <= k < j ==> DeclaratorShaped(ds[k])
      invariant acc == FromPairs(before + DeclarationBindings(ds[..j], moduleName))
    {
      var d := ds[j];
      if d.VariableDeclarator? && !d.id.Identifier? {
        return None;
      }
      DeclarationStep(before, ds, j, moduleName);
      if d.VariableDeclarator? {
        var name := d.id.name;
        var e := if d.init.Some? && d.init.value.ArrowFunctionExpression?
                 then FormatFunction(moduleName, name, d.init.value.params)
                 else ValueEntry(moduleName, name);
        acc := acc.Put(name, e);
      }
      j := j + 1;
    }
    assert ds[..j] == ds;
    return Some(acc);
  }

  /** How one more declarator extends the map built from the declarators before it. */
  lemma DeclarationStep(before: seq<(string, Entry)>, ds: seq<Node>, j: nat, moduleName: string)
    requires j < |ds|
    requires forall k :: 0 <= k <= j ==> DeclaratorShaped(ds[k])
    ensures FromPairs(before + DeclarationBindings(ds[..j + 1], moduleName))
         == if ds[j].VariableDeclarator?
            then FromPairs(before + DeclarationBindings(ds[..j], moduleName)).Put(ds[j].id.name, DeclaratorEntry(ds[j], moduleName))
            else FromPairs(before + DeclarationBindings(ds[..j], moduleName))
  {
    assert ds[..j + 1][..j] == ds[..j];
    var done := before + DeclarationBindings(ds[..j], moduleName);
    assert before + DeclarationBindings(ds[..j + 1], moduleName) == done + DeclaratorBindings(ds[j], moduleName);
    if ds[j].VariableDeclarator? {
      FromPairsSnoc(done, (ds[j].id.name, DeclaratorEntry(ds[j], moduleName)));
    } else {
      assert done + DeclaratorBindings(ds[j], moduleName) == done;
    }
  }

  // ---------------------------------------------------------------------------
  // Properties of the export map

  /** The name a declarator binds, if it is a declarator with an identifier target. */
  function DeclaredName(d: Node): seq<string>
  {
    match d
    case VariableDeclarator(Identifier(n), _) => [n]
    case _ => []
  }

  /** The names bound by the declarators of a declaration, in order. */
  function DeclaredNames(ds: seq<Node>): seq<string>
  {
    if ds == [] then [] else DeclaredNames(ds[..|ds| - 1]) + DeclaredName(ds[|ds| - 1])
  }

  /** The names a top-level statement exports. */
  function BoundNames(s: Node): seq<string>
    requires StatementShaped(s)
  {
    match s
    case ExportNamedDeclaration(Some(FunctionDeclaration(id, _))) => [id.name]
    case ExportNamedDeclaration(Some(VariableDeclaration(ds))) => DeclaredNames(ds)
    case _ => []
  }

  /** The names a module exports, in source order, repeats included. */
  function ExportedNames(body: seq<Node>): seq<string>
    requires AllShaped(body)
  {
    if body == [] then [] else BoundNames(body[0]) + ExportedNames(body[1..])
  }

  lemma {:induction false} FirstsAppend<K, V>(ps: seq<(K, V)>, qs: seq<(K, V)>)
    ensures Firsts(ps + qs) == Firsts(ps) + Firsts(qs)
  {
    assert |Firsts(ps + qs)| == |Firsts(ps) + Firsts(qs)|;
  }

  lemma {:induction false} DeclarationNames(ds: seq<Node>, moduleName: string)
    requires forall i :: 0 <= i < |ds| ==> DeclaratorShaped(ds[i])
    ensures Firsts(DeclarationBindings(ds, moduleName)) == DeclaredNames(ds)
  {
    if ds != [] {
      var init := ds[..|ds| - 1];
      var d := ds[|ds| - 1];
      DeclarationNames(init, moduleName);
      FirstsAppend(DeclarationBindings(init, moduleName), DeclaratorBindings(d, moduleName));
    }
  }

  lemma {:induction false} ExportedNamesSnoc(body: seq<Node>, s: Node)
    requires AllShaped(body) && StatementShaped(s)
    ensures AllShaped(body + [s])
    ensures ExportedNames(body + [s]) == ExportedNames(body) + BoundNames(s)
  {
    if body != [] {
      assert (body + [s])[1..] == body[1..] + [s];
      ExportedNamesSnoc(body[1..], s);
    } else {
      assert body + [s] == [s];
    }
  }

  /** The walk binds exactly the names the module exports, in source order. */
  lemma {:induction false} BindingNames(body: seq<Node>, moduleName: string)
    requires AllShaped(body)
    ensures Firsts(Bindings(body, moduleName)) == ExportedNames(body)
  {
    if body != [] {
      var init := body[..|body| - 1];
      var s := body[|body| - 1];
      BindingNames(init, moduleName);
      FirstsAppend(Bindings(init, moduleName), StatementBindings(s, moduleName));
      ExportedNamesSnoc(init, s);
      assert init + [s] == body;
      StatementNames(s, moduleName);
    }
  }

  lemma StatementNames(s: Node, moduleName: string)
    requires StatementShaped(s)
    ensures Firsts(StatementBindings(s, moduleName)) == BoundNames(s)
  {
    if s.ExportNamedDeclaration? && s.declaration.Some? && s.declaration.value.VariableDeclaration? {
      DeclarationNames(s.declaration.value.declarations, moduleName);
    }
  }

  /**
   * The export map's keys are exactly the names bound by exported function
   * declarations and variable declarators, each once, in the order of its
   * first export; the walk fails exactly when some exported binding target is
   * not an identifier.
   */
  lemma ExportKeys(body: seq<Node>, moduleName: string)
    ensures Exports(body, moduleName).Ok? <==> AllShaped(body)
    ensures AllShaped(body) ==> Exports(body, moduleName).value.keys == Dedup(ExportedNames(body))
    ensures AllShaped(body) ==> forall k :: k in Exports(body, moduleName).value.entries <==> k in ExportedNames(body)
  {
    if AllShaped(body) {
      FromPairsKeys(Bindings(body, moduleName));
      BindingNames(body, moduleName);
      DedupMembers(ExportedNames(body));
    }
  }

  /**
   * A statement that is not an exported function or variable declaration
   * (an `export { ... }` list, an exported class, an import, any other
   * statement) leaves the export map as it was.
   */
  lemma IgnoredStatement(body: seq<Node>, s: Node, moduleName: string)
    requires !(s.ExportNamedDeclaration? && s.declaration.Some?
               && (s.declaration.value.FunctionDeclaration? || s.declaration.value.VariableDeclaration?))
    ensures Exports(body + [s], moduleName) == Exports(body, moduleName)
  {
    AllShapedSnoc(body, s);
    assert StatementShaped(s);
    if AllShaped(body) {
      assert (body + [s])[|body|] == s;
      assert StatementBindings(s, moduleName) == [];
      assert Bindings(body + [s], moduleName) == Bindings(body, moduleName) + [];
      assert Bindings(body, moduleName) + [] == Bindings(body, moduleName);
    }
  }

  lemma AllShapedSnoc(body: seq<Node>, s: Node)
    ensures AllShaped(body + [s]) <==> AllShaped(body) && StatementShaped(s)
    ensures AllShaped(body + [s]) ==> (body + [s])[..|body|] == body
  {
    assert (body + [s])[..|body|] == body;
    if AllShaped(body) && StatementShaped(s) {
      forall i | 0 <= i < |body + [s]| ensures StatementShaped((body + [s])[i]) {
        if i < |body| { assert (body + [s])[i] == body[i]; }
      }
    }
    if AllShaped(body + [s]) {
      assert (body + [s])[|body|] == s;
      forall i | 0 <= i < |body| ensures StatementShaped(body[i]) {
        assert (body + [s])[i] == body[i];
      }
    }
  }

  /**
   * A later exported function declaration overrides any earlier export of
   * the same name: its entry is the formatted signature of its parameters.
   */
  lemma LaterFunctionWins(body: seq<Node>, name: string, params: seq<Node>, moduleName: string)
    requires AllShaped(body)
    ensures var s := ExportNamedDeclaration(Some(FunctionDeclaration(Identifier(name), params)));
      Exports(body + [s], moduleName).Ok? &&
      Exports(body + [s], moduleName).value.entries[name] == FormatFunction(moduleName, name, params)
  {
    var s := ExportNamedDeclaration(Some(FunctionDeclaration(Identifier(name), params)));
    AllShapedSnoc(body, s);
    FromPairsSnoc(Bindings(body, moduleName), (name, FormatFunction(moduleName, name, params)));
  }

  /**
   * In an exported variable declaration, the last declarator of a name
   * decides its entry: the formatted signature of an arrow-function
   * initialiser, and otherwise (any other initialiser, or none) the bare
   * name labelled with the module.
   */
  lemma LaterDeclaratorWins(body: seq<Node>, ds: seq<Node>, name: string, init: Option<Node>, moduleName: string)
    requires AllShaped(body)
    requires forall i :: 0 <= i < |ds| ==> DeclaratorShaped(ds[i])
    ensures var s := ExportNamedDeclaration(Some(VariableDeclaration(ds + [VariableDeclarator(Identifier(name), init)])));
      Exports(body + [s], moduleName).Ok? &&
      Exports(body + [s], moduleName).value.entries[name] ==
        if init.Some? && init.value.ArrowFunctionExpression? then FormatFunction(moduleName, name, init.value.params)
        else ValueEntry(moduleName, name)
  {
    var d := VariableDeclarator(Identifier(name), init);
    var all := ds + [d];
    var s := ExportNamedDeclaration(Some(VariableDeclaration(all)));
    assert all[..|ds|] == ds;
    assert forall i :: 0 <= i < |all| ==> DeclaratorShaped(all[i]);
    AllShapedSnoc(body, s);
    var e := if init.Some? && init.value.ArrowFunctionExpression? then FormatFunction(moduleName, name, init.value.params)
             else ValueEntry(moduleName, name);
    var prior := Bindings(body, moduleName) + DeclarationBindings(ds, moduleName);
    assert Bindings(body + [s], moduleName) == prior + [(name, e)];
    FromPairsSnoc(prior, (name, e));
  }
}
