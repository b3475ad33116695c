/** The `$define` text preprocessor (preprocessor.ts): every line that
    starts with `$define` binds a name to a value and is dropped, every
    other line is kept, and then each `$name` in the kept text is replaced
    by its value, one definition after another. */
module Preprocessor {
  import opened Wrappers
  import opened Text

  /** One entry of the `definitions` record. */
  datatype Definition = Definition(name: string, value: string)

  /** The record as `Object.entries` lists it: one entry per name, in the
      order the names were first assigned. */
  function Names(defs: seq<Definition>): (names: seq<string>)
    ensures |names| == |defs|
    ensures forall k :: 0 <= k < |defs| ==> names[k] == defs[k].name
  {
    if defs == [] then [] else [defs[0].name] + Names(defs[1..])
  }

  /** `definitions[name]`, None when the record has no such key. */
  function Lookup(defs: seq<Definition>, name: string): Option<string> {
    if defs == [] then None
    else if defs[0].name == name then Some(defs[0].value)
    else Lookup(defs[1..], name)
  }

  /** No name is listed twice. */
  predicate NamesDistinct(defs: seq<Definition>) {
    forall j, k :: 0 <= j < k < |defs| ==> defs[j].name != defs[k].name
  }

  /** `definitions[name] = value`: an existing key keeps its place and
      takes the new value, a new key goes last. */
  function Assign(defs: seq<Definition>, name: string, value: string): (r: seq<Definition>)
    ensures |r| == if name in Names(defs) then |defs| else |defs| + 1
  {
    if defs == [] then [Definition(name, value)]
    else if defs[0].name == name then [Definition(name, value)] + defs[1..]
    else [defs[0]] + Assign(defs[1..], name, value)
  }

  /** After `definitions[name] = value` the key `name` holds `value`,
      every other key holds what it held, and the keys are listed in the
      same order with a new key last. */
  lemma {:induction false} AssignUpdates(defs: seq<Definition>, name: string, value: string)
    ensures Names(Assign(defs, name, value)) == if name in Names(defs) then Names(defs) else Names(defs) + [name]
    ensures Lookup(Assign(defs, name, value), name) == Some(value)
    ensures forall other :: other != name ==> Lookup(Assign(defs, name, value), other) == Lookup(defs, other)
    decreases |defs|
  {
    if defs != [] && defs[0].name != name {
      AssignUpdates(defs[1..], name, value);
      assert Names(defs) == [defs[0].name] + Names(defs[1..]);
      assert Assign(defs, name, value)[1..] == Assign(defs[1..], name, value);
    }
  }

  /** Assignment keeps one entry per name. */
  lemma AssignKeepsNamesDistinct(defs: seq<Definition>, name: string, value: string)
    requires NamesDistinct(defs)
    ensures NamesDistinct(Assign(defs, name, value))
  {
    AssignUpdates(defs, name, value);
    var r := Assign(defs, name, value);
    assert Names(r) == if name in Names(defs) then Names(defs) else Names(defs) + [name];
    forall j, k | 0 <= j < k < |r| ensures r[j].name != r[k].name {
      assert r[j].name == Names(r)[j] && r[k].name == Names(r)[k];
      if k == |defs| {
        assert name !in Names(defs);
      }
    }
  }

  /** A word of `line.trim().split(/\s+/)`; a word past the end is
      `undefined`, which becomes the text "undefined" both as a record key
      and in a template string or a replacement. */
  function Word(words: seq<string>, k: nat): string {
    if k < |words| then words[k] else "undefined"
  }

  predicate IsDefineLine(line: string) {
    StartsWith(line, "$define")
  }

  /** The name and the value a define line binds: its second and third
      words. */
  function DefineName(line: string): string {
    Word(SplitSpaces(Trim(line)), 1)
  }

  function DefineValue(line: string): string {
    Word(SplitSpaces(Trim(line)), 2)
  }

  /** The record after the first loop has read `lines`. */
  function DefinitionsOf(lines: seq<string>): seq<Definition> {
    if lines == [] then []
    else
      var defs := DefinitionsOf(lines[..|lines| - 1]);
      var line := lines[|lines| - 1];
      if IsDefineLine(line) then Assign(defs, DefineName(line), DefineValue(line)) else defs
  }

  /** `sourceWithoutDefinitions` after the first loop has read `lines`. */
  function KeptText(lines: seq<string>): string {
    if lines == [] then ""
    else
      var text := KeptText(lines[..|lines| - 1]);
      var line := lines[|lines| - 1];
      if IsDefineLine(line) then text else text + line + "\n"
  }

  /** The second loop: each definition replaces every `$name` in turn. */
  function Substituted(text: string, defs: seq<Definition>): string {
    if defs == [] then text
    else
      var last := defs[|defs| - 1];
      ReplaceAll(Substituted(text, defs[..|defs| - 1]), "$" + last.name, last.value)
  }

  /** What `run(source)` returns. */
  function Preprocessed(source: string): string {
    var lines := Split(source, '\n');
    Substituted(KeptText(lines), DefinitionsOf(lines))
  }

  /** `Preprocessor.run` */
  method Run(source: string) returns (r: string)
    ensures r == Preprocessed(source)
  {
    var definitions: seq<Definition> := [];
    var sourceWithoutDefinitions := "";
    var lines := Split(source, '\n');
    for k := 0 to |lines|
      invariant definitions == DefinitionsOf(lines[..k])
      invariant sourceWithoutDefinitions == KeptText(lines[..k])
    {
      assert lines[..k + 1][..k] == lines[..k];
      var line := lines[k];
      if StartsWith(line, "$define") {
        var words := SplitSpaces(Trim(line));
        definitions := Assign(definitions, Word(words, 1), Word(words, 2));
      } else {
        sourceWithoutDefinitions := sourceWithoutDefinitions + line + "\n";
      }
    }
    assert lines[..|lines|] == lines;
    ghost var kept := sourceWithoutDefinitions;
    for k := 0 to |definitions|
      invariant sourceWithoutDefinitions == Substituted(kept, definitions[..k])
    {
      assert definitions[..k + 1][..k] == definitions[..k];
      sourceWithoutDefinitions := ReplaceAll(sourceWithoutDefinitions, "$" + definitions[k].name, definitions[k].value);
    }
    assert definitions[..|definitions|] == definitions;
    return sourceWithoutDefinitions;
  }

  // ---------------------------------------------------------------------
  // Properties

  /** The lines that are not define lines, in order. */
  function NonDefineLines(lines: seq<string>): (kept: seq<string>)
    ensures |kept| <= |lines|
  {
    if lines == [] then []
    else if IsDefineLine(lines[0]) then NonDefineLines(lines[1..])
    else [lines[0]] + NonDefineLines(lines[1..])
  }

  /** Each line followed by a newline. */
  function Terminated(lines: seq<string>): string {
    if lines == [] then "" else lines[0] + "\n" + Terminated(lines[1..])
  }

  lemma {:induction false} TerminatedAppend(lines: seq<string>, line: string)
    ensures Terminated(lines + [line]) == Terminated(lines) + line + "\n"
    decreases |lines|
  {
    if lines == [] {
      assert lines + [line] == [line];
    } else {
      assert (lines + [line])[1..] == lines[1..] + [line];
      TerminatedAppend(lines[1..], line);
    }
  }

  lemma {:induction false} NonDefineLinesAppend(lines: seq<string>, line: string)
    ensures NonDefineLines(lines + [line]) == NonDefineLines(lines) + (if IsDefineLine(line) then [] else [line])
    decreases |lines|
  {
    if lines == [] {
      assert lines + [line] == [line];
    } else {
      assert (lines + [line])[1..] == lines[1..] + [line];
      NonDefineLinesAppend(lines[1..], line);
    }
  }

  /** The define lines are dropped and every other line is kept, in order,
      each with a newline after it. */
  lemma {:induction false} DefineLinesDropped(lines: seq<string>)
    ensures KeptText(lines) == Terminated(NonDefineLines(lines))
    decreases |lines|
  {
    if lines != [] {
      var init := lines[..|lines| - 1];
      var line := lines[|lines| - 1];
      assert lines == init + [line];
      DefineLinesDropped(init);
      NonDefineLinesAppend(init, line);
      if IsDefineLine(line) {
        assert NonDefineLines(lines) == NonDefineLines(init) + [];
        assert NonDefineLines(init) + [] == NonDefineLines(init);
      } else {
        TerminatedAppend(NonDefineLines(init), line);
        assert KeptText(lines) == KeptText(init) + line + "\n";
      }
    }
  }

  lemma {:induction false} TerminatedJoin(lines: seq<string>)
    requires lines != []
    ensures Terminated(lines) == Join(lines, '\n') + "\n"
    decreases |lines|
  {
    if |lines| > 1 {
      TerminatedJoin(lines[1..]);
    }
  }

  lemma {:induction false} NoDefineLinesKept(lines: seq<string>)
    requires forall k :: 0 <= k < |lines| ==> !IsDefineLine(lines[k])
    ensures NonDefineLines(lines) == lines && DefinitionsOf(lines) == []
    decreases |lines|
  {
    if lines != [] {
      NoDefineLinesKept(lines[1..]);
      NoDefineLinesKept(lines[..|lines| - 1]);
    }
  }

  /** A source without define lines comes back unchanged, with a newline
      added after its last line. */
  lemma NoDefinitionsKeepsSource(source: string)
    requires forall k :: 0 <= k < |Split(source, '\n')| ==> !IsDefineLine(Split(source, '\n')[k])
    ensures Preprocessed(source) == source + "\n"
  {
    var lines := Split(source, '\n');
    NoDefineLinesKept(lines);
    DefineLinesDropped(lines);
    TerminatedJoin(lines);
    JoinSplit(source, '\n');
  }

  /** The value the last define line of `name` gives it, if any. */
  function LastDefinition(lines: seq<string>, name: string): Option<string> {
    if lines == [] then None
    else
      var line := lines[|lines| - 1];
      if IsDefineLine(line) && DefineName(line) == name then Some(DefineValue(line))
      else LastDefinition(lines[..|lines| - 1], name)
  }

  /** A later define of a name overwrites an earlier one. */
  lemma {:induction false} LaterDefinitionWins(lines: seq<string>, name: string)
    ensures Lookup(DefinitionsOf(lines), name) == LastDefinition(lines, name)
    decreases |lines|
  {
    if lines != [] {
      var line := lines[|lines| - 1];
      LaterDefinitionWins(lines[..|lines| - 1], name);
      if IsDefineLine(line) {
        AssignUpdates(DefinitionsOf(lines[..|lines| - 1]), DefineName(line), DefineValue(line));
      }
    }
  }

  /** The record holds one entry per name. */
  lemma {:induction false} DefinitionsDistinct(lines: seq<string>)
    ensures NamesDistinct(DefinitionsOf(lines))
    decreases |lines|
  {
    if lines != [] {
      var line := lines[|lines| - 1];
      DefinitionsDistinct(lines[..|lines| - 1]);
      if IsDefineLine(line) {
        AssignKeepsNamesDistinct(DefinitionsOf(lines[..|lines| - 1]), DefineName(line), DefineValue(line));
      }
    }
  }

  /** The names that define lines bind, each where it is first defined. */
  function FirstDefinitions(lines: seq<string>): seq<string> {
    if lines == [] then []
    else
      var names := FirstDefinitions(lines[..|lines| - 1]);
      var line := lines[|lines| - 1];
      if IsDefineLine(line) && DefineName(line) !in names then names + [DefineName(line)] else names
  }

  /** Substitution runs over the names in the order of their first
      definition, each name once. */
  lemma {:induction false} DefinitionOrder(lines: seq<string>)
    ensures Names(DefinitionsOf(lines)) == FirstDefinitions(lines)
    decreases |lines|
  {
    if lines != [] {
      var line := lines[|lines| - 1];
      DefinitionOrder(lines[..|lines| - 1]);
      if IsDefineLine(line) {
        AssignUpdates(DefinitionsOf(lines[..|lines| - 1]), DefineName(line), DefineValue(line));
      }
    }
  }

  /** Every definition is collected before any text is substituted, so a
      use of `$name` on the line above its define line is replaced too. */
  lemma UseBeforeDefinition(prefix: string, name: string, suffix: string, value: string)
    requires name != [] && value != [] && NoSpace(name) && NoSpace(value)
    requires prefix != [] && '$' !in prefix && '\n' !in prefix && '$' !in suffix && '\n' !in suffix
    ensures Preprocessed(prefix + "$" + name + suffix + "\n" + ("$define " + name + " " + value)) == prefix + value + suffix + "\n"
  {
    var use, define := prefix + "$" + name + suffix, "$define " + name + " " + value;
    UseLine(prefix, name, suffix);
    LineBreaks(name, value);
    DefineLine(name, value);
    TwoLines(use, define);
    SubstituteOne(prefix, name, suffix + "\n", value);
    UseThenDefineRead(use, define, name, value);
    hide Split, ReplaceAll, IsDefineLine, DefineName, DefineValue, SplitSpaces, Trim, KeptText, DefinitionsOf, NoSpace;
    assert use + "\n" == prefix + "$" + name + (suffix + "\n") && prefix + value + (suffix + "\n") == prefix + value + suffix + "\n";
    assert [Definition(name, value)][..0] == [];
    assert Substituted(use + "\n", [Definition(name, value)]) == ReplaceAll(use + "\n", "$" + name, value);
    assert Preprocessed(use + "\n" + define) == Substituted(use + "\n", [Definition(name, value)]);
  }

  /** A define line followed by a line that uses the name: the define
      line is dropped and the use replaced, wherever after the line's
      first character it stands. */
  lemma DefineThenUse(prefix: string, name: string, suffix: string, value: string)
    requires name != [] && value != [] && NoSpace(name) && NoSpace(value)
    requires prefix != [] && '$' !in prefix && '\n' !in prefix && '$' !in suffix && '\n' !in suffix
    ensures Preprocessed("$define " + name + " " + value + "\n" + (prefix + "$" + name + suffix)) == prefix + value + suffix + "\n"
  {
    var define, use := "$define " + name + " " + value, prefix + "$" + name + suffix;
    UseLine(prefix, name, suffix);
    LineBreaks(name, value);
    DefineLine(name, value);
    TwoLines(define, use);
    SubstituteOne(prefix, name, suffix + "\n", value);
    DefineThenUseRead(define, use, name, value);
    hide Split, ReplaceAll, IsDefineLine, DefineName, DefineValue, SplitSpaces, Trim, KeptText, DefinitionsOf, NoSpace;
    assert use + "\n" == prefix + "$" + name + (suffix + "\n") && prefix + value + (suffix + "\n") == prefix + value + suffix + "\n";
    assert [Definition(name, value)][..0] == [];
    assert Substituted(use + "\n", [Definition(name, value)]) == ReplaceAll(use + "\n", "$" + name, value);
    assert Preprocessed(define + "\n" + use) == Substituted(use + "\n", [Definition(name, value)]);
  }

  /** A line that starts with another character than `$` is kept. */
  lemma UseLine(prefix: string, name: string, suffix: string)
    requires prefix != [] && '$' !in prefix
    ensures !IsDefineLine(prefix + "$" + name + suffix)
  {
    var use := prefix + "$" + name + suffix;
    assert use[0] == prefix[0];
    if |use| >= 7 {
      assert use[..7][0] == use[0];
    }
  }

  /** What the first loop makes of a kept line above a define line. */
  lemma UseThenDefineRead(use: string, define: string, name: string, value: string)
    requires !IsDefineLine(use) && IsDefineLine(define)
    requires DefineName(define) == name && DefineValue(define) == value
    ensures KeptText([use, define]) == use + "\n"
    ensures DefinitionsOf([use, define]) == [Definition(name, value)]
  {
    var lines, first: seq<string> := [use, define], [use];
    assert lines[..1] == first && first[..0] == [] && lines[1] == define;
    assert first[0] == use && KeptText(first[..0]) == "" && DefinitionsOf(first[..0]) == [];
    assert "" + use == use;
    assert KeptText(first) == use + "\n" && DefinitionsOf(first) == [];
    assert Assign([], name, value) == [Definition(name, value)];
  }

  /** What the first loop makes of a define line above a kept line. */
  lemma DefineThenUseRead(define: string, use: string, name: string, value: string)
    requires !IsDefineLine(use) && IsDefineLine(define)
    requires DefineName(define) == name && DefineValue(define) == value
    ensures KeptText([define, use]) == use + "\n"
    ensures DefinitionsOf([define, use]) == [Definition(name, value)]
  {
    var lines, first: seq<string> := [define, use], [define];
    assert lines[..1] == first && first[..0] == [] && lines[1] == use;
    assert first[0] == define && KeptText(first[..0]) == "" && DefinitionsOf(first[..0]) == [];
    assert "" + use == use;
    assert Assign([], name, value) == [Definition(name, value)];
    assert KeptText(first) == "" && DefinitionsOf(first) == [Definition(name, value)];
  }

  /** The first preprocessor test: "$define TOKEN 123" and "call $TOKEN"
      give "call 123". */
  lemma DefineThenUseExample()
    ensures Preprocessed("$define TOKEN 123\ncall $TOKEN") == "call 123\n"
  {
    hide Preprocessed;
    assert "$define TOKEN 123\ncall $TOKEN" == "$define " + "TOKEN" + " " + "123" + "\n" + ("call " + "$" + "TOKEN");
    assert "call " + "$" + "TOKEN" == "call " + "$" + "TOKEN" + "";
    assert "call 123\n" == "call " + "123" + "" + "\n";
    DefineThenUse("call ", "TOKEN", "", "123");
  }

  lemma LineBreaks(name: string, value: string)
    requires NoSpace(name) && NoSpace(value)
    ensures '\n' !in name && '\n' !in value && '$' !in "$define "[1..]
    ensures '\n' !in "$define " + name + " " + value
  {
    assert IsSpace('\n');
  }

  lemma TwoLines(a: string, b: string)
    requires '\n' !in a && '\n' !in b
    ensures Split(a + "\n" + b, '\n') == [a, b]
  {
    SplitAtFirst(a, '\n', b);
    SplitWithoutSeparator(b, '\n');
  }

  /** `$define name value` binds `name` to `value`. */
  lemma DefineLine(name: string, value: string)
    requires name != [] && value != [] && NoSpace(name) && NoSpace(value)
    ensures IsDefineLine("$define " + name + " " + value)
    ensures DefineName("$define " + name + " " + value) == name
    ensures DefineValue("$define " + name + " " + value) == value
  {
    var line := "$define " + name + " " + value;
    assert line[..7] == "$define";
    assert line == "$define" + " " + (name + " " + value);
    assert NoSpace("$define");
    TrimOfTrimmed(line);
    SplitSpacesOfWord(value);
    SplitSpacesOfWords(name, value);
    assert (name + " " + value)[0] == name[0];
    SplitSpacesOfWords("$define", name + " " + value);
  }

  /** One character that does not start the pattern is copied. */
  lemma ReplaceAllCopies(c: char, s: string, p: string, v: string)
    requires p != [] && c != p[0]
    ensures ReplaceAll([c] + s, p, v) == [c] + ReplaceAll(s, p, v)
  {
    assert ([c] + s)[1..] == s;
    if |[c] + s| >= |p| {
      assert ([c] + s)[..|p|][0] == c;
    }
  }

  /** A prefix without the pattern's first character is copied. */
  lemma {:induction false} ReplaceAllCopiesPrefix(prefix: string, s: string, p: string, v: string)
    requires p != [] && p[0] !in prefix
    ensures ReplaceAll(prefix + s, p, v) == prefix + ReplaceAll(s, p, v)
    decreases |prefix|
  {
    if prefix != [] {
      var c, t := prefix[0], prefix[1..];
      ReplaceAllCopiesPrefix(t, s, p, v);
      ReplaceAllCopies(c, t + s, p, v);
      assert prefix + s == [c] + (t + s);
      assert ReplaceAll(prefix + s, p, v) == [c] + ReplaceAll(t + s, p, v);
      assert [c] + (t + ReplaceAll(s, p, v)) == prefix + ReplaceAll(s, p, v);
    } else {
      assert prefix + s == s && prefix + ReplaceAll(s, p, v) == ReplaceAll(s, p, v);
    }
  }

  /** One use of `$name` on a line whose text around it has no `$`
      becomes the value. */
  lemma SubstituteOne(prefix: string, name: string, suffix: string, value: string)
    requires '$' !in prefix && '$' !in suffix
    ensures ReplaceAll(prefix + "$" + name + suffix, "$" + name, value) == prefix + value + suffix
  {
    var p := "$" + name;
    ReplaceAllCopiesPrefix(suffix, "", p, value);
    assert suffix + "" == suffix && ReplaceAll("", p, value) == "";
    assert (p + suffix)[..|p|] == p && (p + suffix)[|p|..] == suffix;
    assert ReplaceAll(p + suffix, p, value) == value + suffix;
    ReplaceAllCopiesPrefix(prefix, p + suffix, p, value);
    assert prefix + "$" + name + suffix == prefix + (p + suffix);
  }
}
