/** The import-resolving driver of the token-based assembler
    (assembler/assembler.ts): it parses each reachable file once into a
    memo, flattens the imports of the entry file in place, and runs a
    fresh code generator on the result. The file resolver stands here as a
    map from file name to that file's lexer output. */
module Driver {
  import opened Wrappers
  import opened Tokens
  import opened Errors
  import opened IR
  import G = Generator

  /** What the file resolver can read, already lexed. */
  type Sources = map<string, seq<Token>>

  predicate Lexed(files: Sources) {
    forall f :: f in files ==> LexerOutput(files[f])
  }

  /** The failure of reading a file the resolver does not have. */
  function FileNotFound(filename: string): Failure {
    Plain("file not found: " + filename)
  }

  /** The JavaScript TypeError of iterating the memo entry of a file that
      was never resolved. */
  const NotIterable: string := "tokens is not iterable"

  /** Every import among `nodes` names a file the memo holds. */
  predicate ImportsResolved(imports: map<string, seq<IRNode>>, nodes: seq<IRNode>) {
    forall n :: n in nodes && n.ImportNode? ==> n.filename in imports
  }

  /** An ordering of the files under which every import names a file of
      lower rank: the imports are acyclic. */
  predicate Ranked(imports: map<string, seq<IRNode>>, rank: map<string, nat>) {
    (forall f :: f in imports ==> f in rank)
    && forall f, n :: f in imports && n in imports[f] && n.ImportNode? && n.filename in imports ==>
      rank[n.filename] < rank[f]
  }

  /** Every import of `nodes` that names a memo entry names one of rank
      below `bound - 1`. */
  predicate Bounded(imports: map<string, seq<IRNode>>, rank: map<string, nat>, nodes: seq<IRNode>, bound: nat)
    requires Ranked(imports, rank)
  {
    forall n :: n in nodes && n.ImportNode? && n.filename in imports ==> rank[n.filename] + 1 < bound
  }

  /** What `combineIRTokens` appends to `ir`: the nodes in order, each
      import replaced by the flattened nodes of the file it names, up to
      the first import whose file has no memo entry, and that failure. */
  datatype Flat = Flat(nodes: seq<IRNode>, failure: Option<Failure>)

  function FlattenNodes(imports: map<string, seq<IRNode>>, rank: map<string, nat>, nodes: seq<IRNode>, bound: nat): (r: Flat)
    requires Ranked(imports, rank) && Bounded(imports, rank, nodes, bound)
    decreases bound, |nodes|
  {
    if nodes == [] then Flat([], None)
    else
      var init := nodes[..|nodes| - 1];
      var last := nodes[|nodes| - 1];
      assert forall n :: n in init ==> n in nodes;
      var before := FlattenNodes(imports, rank, init, bound);
      if before.failure.Some? then before
      else if !last.ImportNode? then Flat(before.nodes + [last], None)
      else if last.filename !in imports then Flat(before.nodes, Some(Plain(NotIterable)))
      else
        var inner := FlattenNodes(imports, rank, imports[last.filename], rank[last.filename] + 1);
        Flat(before.nodes + inner.nodes, inner.failure)
  }

  /** `combineIRTokens(filename)` */
  function FlattenFile(imports: map<string, seq<IRNode>>, rank: map<string, nat>, filename: string): Flat
    requires Ranked(imports, rank)
  {
    if filename !in imports then Flat([], Some(Plain(NotIterable)))
    else FlattenNodes(imports, rank, imports[filename], rank[filename] + 1)
  }

  /** The flattened IR holds no import node, and every node it holds is a
      node of some memo entry. */
  lemma {:induction false} FlattenNodesOrigin(imports: map<string, seq<IRNode>>, rank: map<string, nat>, nodes: seq<IRNode>, bound: nat)
    requires Ranked(imports, rank) && Bounded(imports, rank, nodes, bound)
    ensures forall n :: n in FlattenNodes(imports, rank, nodes, bound).nodes ==>
      !n.ImportNode? && (n in nodes || exists f :: f in imports && n in imports[f])
    decreases bound, |nodes|
  {
    if nodes != [] {
      var init := nodes[..|nodes| - 1];
      var last := nodes[|nodes| - 1];
      assert forall n :: n in init ==> n in nodes;
      FlattenNodesOrigin(imports, rank, init, bound);
      var before := FlattenNodes(imports, rank, init, bound);
      assert forall n :: n in init ==> n in nodes;
      if before.failure.None? && last.ImportNode? && last.filename in imports {
        var inner := imports[last.filename];
        FlattenNodesOrigin(imports, rank, inner, rank[last.filename] + 1);
      }
    }
  }

  lemma FlattenFileOrigin(imports: map<string, seq<IRNode>>, rank: map<string, nat>, filename: string)
    requires Ranked(imports, rank)
    ensures forall n :: n in FlattenFile(imports, rank, filename).nodes ==>
      !n.ImportNode? && exists f :: f in imports && n in imports[f]
  {
    if filename in imports {
      FlattenNodesOrigin(imports, rank, imports[filename], rank[filename] + 1);
    }
  }

  /** A file without imports flattens to itself. */
  lemma {:induction false} FlattenWithoutImports(imports: map<string, seq<IRNode>>, rank: map<string, nat>, nodes: seq<IRNode>, bound: nat)
    requires Ranked(imports, rank) && forall n :: n in nodes ==> !n.ImportNode?
    ensures FlattenNodes(imports, rank, nodes, bound) == Flat(nodes, None)
    decreases |nodes|
  {
    if nodes != [] {
      var init := nodes[..|nodes| - 1];
      assert forall n :: n in init ==> n in nodes;
      FlattenWithoutImports(imports, rank, init, bound);
      assert init + [nodes[|nodes| - 1]] == nodes;
    }
  }

  /** Flattening a concatenation flattens the first part, then the
      second: the relative order of the nodes is kept. */
  lemma {:induction false} FlattenConcat(imports: map<string, seq<IRNode>>, rank: map<string, nat>, a: seq<IRNode>, b: seq<IRNode>, bound: nat)
    requires Ranked(imports, rank) && Bounded(imports, rank, a + b, bound)
    ensures Bounded(imports, rank, a, bound) && Bounded(imports, rank, b, bound)
    ensures FlattenNodes(imports, rank, a, bound).failure.None? ==>
      FlattenNodes(imports, rank, a + b, bound) ==
        Flat(FlattenNodes(imports, rank, a, bound).nodes + FlattenNodes(imports, rank, b, bound).nodes,
             FlattenNodes(imports, rank, b, bound).failure)
    decreases |b|
  {
    assert forall n :: n in a ==> n in a + b;
    assert forall n :: n in b ==> n in a + b;
    if b == [] {
      assert a + b == a;
    } else {
      var b' := b[..|b| - 1];
      assert (a + b)[..|a + b| - 1] == a + b';
      assert (a + b)[|a + b| - 1] == b[|b| - 1];
      FlattenConcat(imports, rank, a, b', bound);
      var x := FlattenNodes(imports, rank, a, bound).nodes;
      var e := FlattenNodes(imports, rank, b', bound);
      var last := b[|b| - 1];
      if e.failure.None? && last.ImportNode? && last.filename in imports {
        var inner := FlattenNodes(imports, rank, imports[last.filename], rank[last.filename] + 1);
        assert x + e.nodes + inner.nodes == x + (e.nodes + inner.nodes);
      } else if e.failure.None? && !last.ImportNode? {
        assert x + e.nodes + [last] == x + (e.nodes + [last]);
      }
    }
  }

  function Label(name: string): IRNode {
    LabelDefinitionNode(name, Token(LabelDefinition, name, "lib", 1, 1))
  }

  function Import(filename: string): IRNode {
    ImportNode(filename, Token(Keyword, "import", "main", 1, 1))
  }

  /** No memo of flattened files: a file imported from two places appears
      twice. */
  lemma DuplicateImportsKept()
    ensures var imports := map["main" := [Import("lib"), Import("lib")], "lib" := [Label("x")]];
      var rank := map["main" := 1, "lib" := 0];
      Ranked(imports, rank) && FlattenFile(imports, rank, "main") == Flat([Label("x"), Label("x")], None)
  {
    var imports := map["main" := [Import("lib"), Import("lib")], "lib" := [Label("x")]];
    var rank := map["main" := 1, "lib" := 0];
    assert Ranked(imports, rank);
    var main := [Import("lib"), Import("lib")];
    FlattenWithoutImports(imports, rank, [Label("x")], 1);
    assert main[..1] == [Import("lib")];
    assert [Import("lib")][..0] == [];
    assert FlattenNodes(imports, rank, [Import("lib")], 2) == Flat([Label("x")], None);
    assert [Label("x")] + [Label("x")] == [Label("x"), Label("x")];
  }

  /** The typing the code generator needs holds of every memo entry. */
  predicate TypedNodes(nodes: seq<IRNode>) {
    forall n :: n in nodes && n.ConstDefinitionNode? ==> !n.value.value.ConstRef?
  }

  lemma TypedNodesAreTyped(nodes: seq<IRNode>)
    requires TypedNodes(nodes)
    ensures G.NonConstDefinitions(nodes)
  {
    assert forall k :: 0 <= k < |nodes| ==> nodes[k] in nodes;
  }

  /** The `k`-th file read; a function of its own so that the parse facts
      of the memo are looked at only where a proof names an entry. */
  ghost function LogAt(log: seq<string>, k: nat): (f: string)
    requires k < |log|
    ensures f in log
  {
    log[k]
  }

  ghost predicate ParsedAt(files: Sources, imports: map<string, seq<IRNode>>, f: string)
    requires Lexed(files)
  {
    f in files && f in imports && ProgramFrom(files[f], 0) == Ok(imports[f])
  }

  /** The memo holds the parse of each file it names, every entry is
      typed, and the read log names each memo entry exactly once. */
  ghost predicate MemoValid(files: Sources, imports: map<string, seq<IRNode>>, readLog: seq<string>) {
    Lexed(files)
    && imports.Keys <= files.Keys
    && (forall k :: 0 <= k < |readLog| ==> ParsedAt(files, imports, LogAt(readLog, k)))
    && (forall f :: f in imports ==> TypedNodes(imports[f]))
    && (forall f :: f in imports <==> f in readLog)
    && (forall i, j :: 0 <= i < j < |readLog| ==> readLog[i] != readLog[j])
  }

  /** The combined IR holds typed nodes and no import. */
  predicate CombinedValid(ir: seq<IRNode>) {
    TypedNodes(ir) && forall n :: n in ir ==> !n.ImportNode?
  }

  /** Writing a new file's parse to the memo, and its name to the log. */
  lemma MemoExtend(files: Sources, imports: map<string, seq<IRNode>>, readLog: seq<string>, f: string, nodes: seq<IRNode>)
    requires MemoValid(files, imports, readLog) && f in files && f !in imports
    requires ProgramFrom(files[f], 0) == Ok(nodes)
    ensures MemoValid(files, imports[f := nodes], readLog + [f])
  {
    var log := readLog + [f];
    forall k | 0 <= k < |log| ensures ParsedAt(files, imports[f := nodes], LogAt(log, k)) {
      if k < |readLog| {
        assert LogAt(log, k) == LogAt(readLog, k);
        assert ParsedAt(files, imports, LogAt(readLog, k));
      }
    }
    ProgramWellFormed(files[f], 0);
  }

  /** Every memo entry is the parse of its file. */
  lemma MemoParse(files: Sources, imports: map<string, seq<IRNode>>, readLog: seq<string>, f: string)
    requires MemoValid(files, imports, readLog) && f in imports
    ensures ProgramFrom(files[f], 0) == Ok(imports[f])
  {
    var k :| 0 <= k < |readLog| && readLog[k] == f;
    assert ParsedAt(files, imports, LogAt(readLog, k));
  }

  /** Every file of `done` is in the memo with all its imports. */
  predicate ClosedOver(imports: map<string, seq<IRNode>>, done: set<string>) {
    forall f :: f in done ==> f in imports && ImportsResolved(imports, imports[f])
  }

  /** Closure survives growing the memo without changing its entries. */
  lemma ClosedGrows(before: map<string, seq<IRNode>>, after: map<string, seq<IRNode>>, done: set<string>)
    requires ClosedOver(before, done) && before.Keys <= after.Keys
    requires forall f :: f in before ==> after[f] == before[f]
    ensures ClosedOver(after, done)
  {
  }

  /** Closure over what an earlier step added and over what a later step
      added is closure over both. */
  lemma ClosedStep(start: map<string, seq<IRNode>>, before: map<string, seq<IRNode>>, after: map<string, seq<IRNode>>)
    requires start.Keys <= before.Keys <= after.Keys
    requires forall f :: f in before ==> after[f] == before[f]
    requires ClosedOver(before, before.Keys - start.Keys) && ClosedOver(after, after.Keys - before.Keys)
    ensures ClosedOver(after, after.Keys - start.Keys)
  {
    ClosedGrows(before, after, before.Keys - start.Keys);
    assert after.Keys - start.Keys == (before.Keys - start.Keys) + (after.Keys - before.Keys);
  }

  lemma ResolvedByIndex(imports: map<string, seq<IRNode>>, nodes: seq<IRNode>)
    requires forall m :: 0 <= m < |nodes| && nodes[m].ImportNode? ==> nodes[m].filename in imports
    ensures ImportsResolved(imports, nodes)
  {
    forall n | n in nodes && n.ImportNode? ensures n.filename in imports {
      var m :| 0 <= m < |nodes| && nodes[m] == n;
    }
  }

  class Assembler {
    const files: Sources
    var imports: map<string, seq<IRNode>>
    var ir: seq<IRNode>
    /** The files read so far, in order. */
    ghost var readLog: seq<string>

    constructor(files: Sources)
      requires Lexed(files)
      ensures this.files == files && imports == map[] && ir == [] && readLog == []
      ensures Valid()
    {
      this.files := files;
      imports := map[];
      ir := [];
      readLog := [];
    }

    /** The memo holds the parse of each file it names; the read log names
        each memo entry exactly once; the combined IR holds typed nodes and
        no import. */
    ghost predicate Valid()
      reads this
    {
      MemoValid(files, imports, readLog) && CombinedValid(ir)
    }

    /** `resolveImports(filename)`: a file already in the memo is not read
        again; any other is read, parsed, written to the memo, and then its
        imports are resolved in order. On success every file this call
        added names only files the memo holds. */
    method ResolveImports(filename: string) returns (failure: Option<Failure>)
      requires Valid()
      modifies this
      decreases files.Keys - imports.Keys, 1
      ensures Valid() && ir == old(ir)
      ensures old(imports).Keys <= imports.Keys && old(readLog) <= readLog
      ensures forall f :: f in old(imports) ==> imports[f] == old(imports)[f]
      ensures filename in old(imports) ==> failure.None? && imports == old(imports) && readLog == old(readLog)
      ensures filename !in old(imports) && filename !in files ==> failure == Some(FileNotFound(filename))
      ensures filename !in old(imports) && filename in files && ProgramFrom(files[filename], 0).Err? ==>
        failure == Some(Parse(ProgramFrom(files[filename], 0).error))
      ensures failure.None? ==> filename in imports && ClosedOver(imports, imports.Keys - old(imports).Keys)
    {
      if filename in imports {
        return None;
      }
      if filename !in files {
        return Some(FileNotFound(filename));
      }
      var generator := new IRGenerator();
      var parsed := generator.Run(files[filename]);
      if parsed.Err? {
        return Some(Parse(parsed.error));
      }
      var nodes := parsed.value;
      MemoExtend(files, imports, readLog, filename, nodes);
      imports := imports[filename := nodes];
      readLog := readLog + [filename];
      failure := ResolveEach(nodes, filename, old(imports));
      if failure.None? {
        assert imports.Keys - old(imports).Keys
          == (imports.Keys - old(imports).Keys - {filename}) + {filename};
      }
    }

    /** The loop of `resolveImports(filename)` over the file's nodes, once
        the file is in the memo. */
    method ResolveEach(nodes: seq<IRNode>, ghost filename: string, ghost entry: map<string, seq<IRNode>>)
      returns (failure: Option<Failure>)
      requires Valid() && filename in files && filename !in entry
      requires filename in imports && imports[filename] == nodes
      requires entry.Keys <= imports.Keys && forall f :: f in entry ==> imports[f] == entry[f]
      modifies this
      decreases files.Keys - entry.Keys, 0
      ensures Valid() && ir == old(ir)
      ensures old(imports).Keys <= imports.Keys && old(readLog) <= readLog
      ensures forall f :: f in old(imports) ==> imports[f] == old(imports)[f]
      ensures failure.None? ==> ImportsResolved(imports, nodes) && ClosedOver(imports, imports.Keys - old(imports).Keys)
    {
      hide MemoValid, CombinedValid, ProgramFrom;
      ghost var start := imports;
      for k := 0 to |nodes|
        invariant Valid() && ir == old(ir) && old(readLog) <= readLog
        invariant start.Keys <= imports.Keys && forall f :: f in start ==> imports[f] == start[f]
        invariant forall m :: 0 <= m < k && nodes[m].ImportNode? ==> nodes[m].filename in imports
        invariant ClosedOver(imports, imports.Keys - start.Keys)
      {
        if nodes[k].ImportNode? {
          assert files.Keys - imports.Keys < files.Keys - entry.Keys by {
            assert filename in files.Keys - entry.Keys;
          }
          ghost var before := imports;
          failure := ResolveImports(nodes[k].filename);
          if failure.Some? {
            return;
          }
          ClosedStep(start, before, imports);
        }
      }
      ResolvedByIndex(imports, nodes);
      return None;
    }

    /** `combineIRTokens(filename)`: appends the flattened IR of the file
        to `ir`; the imports must be acyclic for it to end. */
    method CombineIRTokens(filename: string, ghost rank: map<string, nat>) returns (failure: Option<Failure>)
      requires Valid() && Ranked(imports, rank)
      modifies this
      decreases if filename in imports then rank[filename] + 1 else 0, 1
      ensures imports == old(imports) && readLog == old(readLog)
      ensures ir == old(ir) + FlattenFile(imports, rank, filename).nodes
      ensures failure == FlattenFile(imports, rank, filename).failure
      ensures Valid()
    {
      if filename !in imports {
        return Some(Plain(NotIterable));
      }
      failure := CombineNodes(imports[filename], rank[filename] + 1, rank);
    }

    /** The loop of `combineIRTokens` over one file's nodes. */
    method CombineNodes(tokens: seq<IRNode>, ghost bound: nat, ghost rank: map<string, nat>) returns (failure: Option<Failure>)
      requires Valid() && Ranked(imports, rank) && Bounded(imports, rank, tokens, bound) && bound >= 1
      requires TypedNodes(tokens)
      modifies this
      decreases bound, 0
      ensures imports == old(imports) && readLog == old(readLog)
      ensures ir == old(ir) + FlattenNodes(imports, rank, tokens, bound).nodes
      ensures failure == FlattenNodes(imports, rank, tokens, bound).failure
      ensures Valid()
    {
      hide MemoValid, ProgramFrom;
      ghost var start := ir;
      assert tokens[..0] == [];
      for k := 0 to |tokens|
        invariant imports == old(imports) && readLog == old(readLog)
        invariant Bounded(imports, rank, tokens[..k], bound)
        invariant FlattenNodes(imports, rank, tokens[..k], bound).failure.None?
        invariant ir == start + FlattenNodes(imports, rank, tokens[..k], bound).nodes
        invariant Valid()
      {
        FlattenPrefix(imports, rank, tokens, k, bound);
        ghost var prev := FlattenNodes(imports, rank, tokens[..k], bound).nodes;
        var token := tokens[k];
        if token.ImportNode? {
          failure := CombineIRTokens(token.filename, rank);
          assert start + prev + FlattenFile(imports, rank, token.filename).nodes
            == start + (prev + FlattenFile(imports, rank, token.filename).nodes);
          if failure.Some? {
            FlattenFailureTail(imports, rank, tokens, k + 1, bound);
            return;
          }
        } else {
          assert token in tokens;
          assert start + prev + [token] == start + (prev + [token]);
          ir := ir + [token];
        }
      }
      assert tokens[..|tokens|] == tokens;
      return None;
    }

    /** `run(entrypoint)`: resolve, combine, then one run of a fresh code
        generator on everything combined so far. */
    method Run(entrypoint: string, ghost rank: map<string, nat>) returns (r: Result<seq<G.Byte>, Failure>, ghost resolved: bool)
      requires Valid() && SourcesRanked(files, rank)
      modifies this
      ensures Valid() && Ranked(imports, rank) && old(imports).Keys <= imports.Keys
      ensures entrypoint in old(imports) ==> resolved && imports == old(imports)
      ensures entrypoint !in old(imports) && entrypoint !in files ==> !resolved && r == Err(FileNotFound(entrypoint))
      ensures !resolved ==> r.Err? && ir == old(ir)
      ensures resolved ==> (entrypoint in imports
        && ClosedOver(imports, imports.Keys - old(imports).Keys)
        && ir == old(ir) + FlattenFile(imports, rank, entrypoint).nodes
        && G.NonConstDefinitions(ir)
        && r == (match FlattenFile(imports, rank, entrypoint).failure
                 case Some(f) => Err(f)
                 case None => G.Assemble(ir)))
    {
      var failure := ResolveImports(entrypoint);
      MemoRanked(rank);
      if failure.Some? {
        return Err(failure.value), false;
      }
      failure := CombineIRTokens(entrypoint, rank);
      TypedNodesAreTyped(ir);
      if failure.Some? {
        return Err(failure.value), true;
      }
      var generator := new G.CodeGenerator();
      r := generator.Run(ir);
      ghost var t := G.TablesAfter(G.Tables(map[], map[]), ir);
      assert generator.State() == t;
      assert generator.program == [] + G.Emit(t, ir).bytes == G.Emit(t, ir).bytes;
      assert r == G.Assemble(ir);
      resolved := true;
    }

    lemma MemoRanked(rank: map<string, nat>)
      requires Valid() && SourcesRanked(files, rank)
      ensures Ranked(imports, rank)
    {
      forall f | f in imports ensures ParseOf(files, f) == Ok(imports[f]) {
        MemoParse(files, imports, readLog, f);
      }
    }
  }

  /** The parse of a source file; a function of its own so that the
      acyclicity facts are looked at only where a proof names a file. */
  ghost function ParseOf(files: Sources, f: string): Result<seq<IRNode>, ParseError>
    requires Lexed(files) && f in files
  {
    ProgramFrom(files[f], 0)
  }

  /** The import graph of the sources is acyclic. */
  ghost predicate SourcesRanked(files: Sources, rank: map<string, nat>)
    requires Lexed(files)
  {
    forall f {:trigger ParseOf(files, f)} :: f in files && ParseOf(files, f).Ok? ==> (f in rank &&
      forall n :: n in ParseOf(files, f).value && n.ImportNode? && n.filename in files ==>
        n.filename in rank && rank[n.filename] < rank[f])
  }

  /** Flattening one node more. */
  lemma FlattenPrefix(imports: map<string, seq<IRNode>>, rank: map<string, nat>, nodes: seq<IRNode>, k: nat, bound: nat)
    requires Ranked(imports, rank) && Bounded(imports, rank, nodes, bound) && k < |nodes|
    ensures Bounded(imports, rank, nodes[..k], bound) && Bounded(imports, rank, nodes[..k + 1], bound)
    ensures var before := FlattenNodes(imports, rank, nodes[..k], bound);
      FlattenNodes(imports, rank, nodes[..k + 1], bound) ==
        if before.failure.Some? then before
        else if !nodes[k].ImportNode? then Flat(before.nodes + [nodes[k]], None)
        else if nodes[k].filename !in imports then Flat(before.nodes, Some(Plain(NotIterable)))
        else Flat(before.nodes + FlattenFile(imports, rank, nodes[k].filename).nodes,
                  FlattenFile(imports, rank, nodes[k].filename).failure)
  {
    assert forall n :: n in nodes[..k + 1] ==> n in nodes;
    assert forall n :: n in nodes[..k] ==> n in nodes;
    assert nodes[..k + 1][..k] == nodes[..k];
  }

  /** A failure on a prefix is the failure of the whole. */
  lemma FlattenFailureTail(imports: map<string, seq<IRNode>>, rank: map<string, nat>, nodes: seq<IRNode>, j: nat, bound: nat)
    requires Ranked(imports, rank) && Bounded(imports, rank, nodes, bound) && j <= |nodes|
    requires Bounded(imports, rank, nodes[..j], bound) && FlattenNodes(imports, rank, nodes[..j], bound).failure.Some?
    ensures FlattenNodes(imports, rank, nodes, bound) == FlattenNodes(imports, rank, nodes[..j], bound)
  {
    assert nodes[..j] + nodes[j..] == nodes;
    FlattenFailureSticks(imports, rank, nodes[..j], nodes[j..], bound);
  }

  /** A failure stops the flattening. */
  lemma {:induction false} FlattenFailureSticks(imports: map<string, seq<IRNode>>, rank: map<string, nat>, a: seq<IRNode>, b: seq<IRNode>, bound: nat)
    requires Ranked(imports, rank) && Bounded(imports, rank, a + b, bound)
    requires Bounded(imports, rank, a, bound) && FlattenNodes(imports, rank, a, bound).failure.Some?
    ensures FlattenNodes(imports, rank, a + b, bound) == FlattenNodes(imports, rank, a, bound)
    decreases |b|
  {
    if b == [] {
      assert a + b == a;
    } else {
      assert (a + b)[..|a + b| - 1] == a + b[..|b| - 1];
      FlattenConcat(imports, rank, a, b, bound);
      assert forall n :: n in a + b[..|b| - 1] ==> n in a + b;
      FlattenFailureSticks(imports, rank, a, b[..|b| - 1], bound);
    }
  }
}
