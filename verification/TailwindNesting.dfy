/** Accepted files are well nested: their plain bytes are the text of a forest of matched brackets. */
module TailwindNesting {
  import opened Wrappers
  import opened TailwindLex
  import opened TailwindSpec
  import opened TailwindSources

  // ---------- the bracket grammar ----------

  /** A block, a parenthesis, a custom property value, or a bracket group inside such a value. */
  datatype Kind = Brace | Paren | Value | Group(open: Byte)

  datatype Item = Leaf(b: Byte) | Node(kind: Kind, body: seq<Item>)

  function OpenText(kind: Kind): Bytes {
    match kind
    case Brace => [OPEN_BRACE]
    case Paren => [OPEN_PAREN]
    case Value => [HYPHEN, HYPHEN]
    case Group(open) => [open]
  }

  /** A value has no closing text: it ends in front of a semicolon, or with its block. */
  function CloseText(kind: Kind): Bytes {
    match kind
    case Brace => [CLOSE_BRACE]
    case Paren => [CLOSE_PAREN]
    case Value => []
    case Group(open) => if Closer(open).Some? then [Closer(open).value] else []
  }

  function Flatten(items: seq<Item>): Bytes
    decreases items
  {
    if items == [] then [] else Flatten(items[..|items| - 1]) + Spell(items[|items| - 1])
  }

  function Spell(item: Item): Bytes
    decreases item
  {
    match item
    case Leaf(b) => [b]
    case Node(kind, body) => OpenText(kind) + Flatten(body) + CloseText(kind)
  }

  predicate Allows(outer: Kind, inner: Kind) {
    match outer
    case Brace => !inner.Group?
    case Paren => inner.Paren?
    case Value => inner.Group? && Closer(inner.open).Some?
    case Group(_) => inner.Group? && Closer(inner.open).Some?
  }

  /** Only directly inside a value may a `)` or `]` stand alone. */
  predicate LeafOk(kind: Kind, b: Byte) {
    && Ascii(b) && b != OPEN_BRACE && b != CLOSE_BRACE && b != OPEN_PAREN
    && (b == CLOSE_PAREN ==> kind.Value?)
    && (kind.Value? || kind.Group? ==> b != AT && b != OPEN_SQUARE)
    && (kind.Group? ==> b != CLOSE_SQUARE)
    && (kind.Value? ==> b != SEMICOLON)
  }

  predicate IsValue(item: Item) {
    item.Node? && item.kind.Value?
  }

  predicate Blank(b: Byte) {
    b == SPACE || b == TAB || b == NEWLINE
  }

  /** Since the last semicolon or block, only blanks: spaces, tabs, newlines, and CR LF. */
  predicate StatementStart(items: seq<Item>) {
    || items == []
    || (var n := |items| - 1;
        || items[n] == Leaf(SEMICOLON)
        || (items[n].Node? && items[n].kind.Brace?)
        || (items[n].Leaf? && Blank(items[n].b) && StatementStart(items[..n]))
        || (n > 0 && items[n] == Leaf(NEWLINE) && items[n - 1] == Leaf(RETURN) && StatementStart(items[..n - 1])))
  }

  predicate ItemOk(kind: Kind, item: Item)
    decreases item
  {
    match item
    case Leaf(b) => LeafOk(kind, b)
    case Node(inner, body) => Allows(kind, inner) && BodyOk(inner, body)
  }

  /** Values stand at statement starts and end in front of a semicolon or with their block. */
  predicate BodyOk(kind: Kind, items: seq<Item>)
    decreases items
  {
    && (forall i :: 0 <= i < |items| ==> ItemOk(kind, items[i]))
    && (forall i :: 0 <= i < |items| && IsValue(items[i]) ==>
          StatementStart(items[..i]) && (i + 1 == |items| || items[i + 1] == Leaf(SEMICOLON)))
  }

  // ---------- open brackets ----------

  /** The brackets still open, innermost last, each with what it holds so far. */
  datatype Context = Top(items: seq<Item>) | In(outer: Context, kind: Kind, items: seq<Item>)

  function KindOf(ctx: Context): Kind {
    if ctx.Top? then Brace else ctx.kind
  }

  function TextOf(ctx: Context): Bytes {
    match ctx
    case Top(items) => Flatten(items)
    case In(outer, kind, items) => TextOf(outer) + OpenText(kind) + Flatten(items)
  }

  predicate Settled(kind: Kind, items: seq<Item>) {
    BodyOk(kind, items) && (items != [] ==> !IsValue(items[|items| - 1]))
  }

  predicate ContextOk(ctx: Context) {
    && Settled(KindOf(ctx), ctx.items)
    && (ctx.In? ==> ContextOk(ctx.outer) && Allows(KindOf(ctx.outer), ctx.kind)
                    && (ctx.kind.Value? ==> StatementStart(ctx.outer.items)))
  }

  /** The scanner's counters and closer stack are the open brackets. */
  predicate Fits(ctx: Context, depth: nat, paren: nat, custom: Option<Bytes>) {
    match ctx
    case Top(_) => depth == 0 && paren == 0 && custom.None?
    case In(outer, Brace, _) => depth > 0 && paren == 0 && custom.None? && Fits(outer, depth - 1, 0, None)
    case In(outer, Paren, _) => paren > 0 && custom.None? && Fits(outer, depth, paren - 1, None)
    case In(outer, Value, _) => paren == 0 && custom == Some([]) && Fits(outer, depth, 0, None)
    case In(outer, Group(open), _) =>
      && custom.Some? && custom.value != [] && Closer(open) == Some(custom.value[|custom.value| - 1])
      && Fits(outer, depth, paren, Some(custom.value[..|custom.value| - 1]))
  }

  /** Between the two bytes of a CR LF at a statement start. */
  predicate InLineEnd(css: Bytes, items: seq<Item>, pos: nat) {
    items != [] && items[|items| - 1] == Leaf(RETURN) && StatementStart(items[..|items| - 1]) && At(css, pos, NEWLINE)
  }

  predicate Tracks(css: Bytes, ctx: Context, st: State) {
    && HeadOk(st) && ContextOk(ctx) && Fits(ctx, st.depth, st.paren, st.custom)
    && (!st.content ==> StatementStart(ctx.items) || InLineEnd(css, ctx.items, st.pos))
  }

  function Add(ctx: Context, more: seq<Item>): Context {
    ctx.(items := ctx.items + more)
  }

  /** `more` may be added inside a bracket of this kind. */
  predicate Addable(kind: Kind, more: seq<Item>) {
    forall i :: 0 <= i < |more| ==> ItemOk(kind, more[i]) && !IsValue(more[i])
  }

  function Leaves(text: Bytes): seq<Item> {
    seq(|text|, i requires 0 <= i < |text| => Leaf(text[i]))
  }

  lemma {:induction false} FlattenConcat(a: seq<Item>, b: seq<Item>)
    ensures Flatten(a + b) == Flatten(a) + Flatten(b)
    decreases |b|
  {
    hide Spell;
    if b == [] {
      assert a + b == a;
    } else {
      var n := |b| - 1;
      assert (a + b)[..|a + b| - 1] == a + b[..n];
      FlattenConcat(a, b[..n]);
    }
  }

  lemma {:induction false} FlattenLeaves(text: Bytes)
    ensures Flatten(Leaves(text)) == text
    decreases |text|
  {
    if text != [] {
      var n := |text| - 1;
      assert Leaves(text)[..n] == Leaves(text[..n]);
      FlattenLeaves(text[..n]);
      assert text == text[..n] + [text[n]];
    }
  }

  lemma AddSettled(kind: Kind, items: seq<Item>, more: seq<Item>)
    requires Settled(kind, items) && Addable(kind, more)
    ensures Settled(kind, items + more)
  {
    var all := items + more;
    forall i | 0 <= i < |all|
      ensures ItemOk(kind, all[i])
      ensures IsValue(all[i]) ==> i < |items| && all[i] == items[i]
    {
      if i < |items| { assert all[i] == items[i]; } else { assert all[i] == more[i - |items|]; }
    }
    forall i | 0 <= i < |all| && IsValue(all[i])
      ensures StatementStart(all[..i]) && (i + 1 == |all| || all[i + 1] == Leaf(SEMICOLON))
    {
      assert all[..i] == items[..i];
      assert i + 1 < |items| && all[i + 1] == items[i + 1];
    }
  }

  lemma AddOk(ctx: Context, more: seq<Item>)
    requires ContextOk(ctx) && Addable(KindOf(ctx), more)
    ensures ContextOk(Add(ctx, more)) && TextOf(Add(ctx, more)) == TextOf(ctx) + Flatten(more)
  {
    hide BodyOk, ItemOk, TextOf;
    AddSettled(KindOf(ctx), ctx.items, more);
    AddText(ctx, more);
  }

  lemma AddText(ctx: Context, more: seq<Item>)
    ensures TextOf(Add(ctx, more)) == TextOf(ctx) + Flatten(more)
  {
    hide Flatten;
    FlattenConcat(ctx.items, more);
  }

  lemma AddLeaf(ctx: Context, b: Byte)
    requires ContextOk(ctx) && LeafOk(KindOf(ctx), b)
    ensures ContextOk(Add(ctx, [Leaf(b)])) && TextOf(Add(ctx, [Leaf(b)])) == TextOf(ctx) + [b]
  {
    hide ContextOk, TextOf, Flatten;
    AddOk(ctx, [Leaf(b)]);
    assert Leaves([b]) == [Leaf(b)];
    FlattenLeaves([b]);
  }

  lemma PushOk(ctx: Context, kind: Kind)
    requires ContextOk(ctx) && Allows(KindOf(ctx), kind) && (kind.Value? ==> StatementStart(ctx.items))
    ensures ContextOk(In(ctx, kind, [])) && TextOf(In(ctx, kind, [])) == TextOf(ctx) + OpenText(kind)
  {
    hide BodyOk, ItemOk, StatementStart;
    assert Settled(kind, []) by { EmptySettled(kind); }
  }

  lemma EmptySettled(kind: Kind)
    ensures Settled(kind, [])
  {
  }

  /** Close the innermost bracket. */
  function Close(ctx: Context): Context
    requires ctx.In?
  {
    Add(ctx.outer, [Node(ctx.kind, ctx.items)])
  }

  lemma CloseOk(ctx: Context)
    requires ContextOk(ctx) && ctx.In? && !ctx.kind.Value?
    ensures ContextOk(Close(ctx)) && TextOf(Close(ctx)) == TextOf(ctx) + CloseText(ctx.kind)
  {
    hide BodyOk, StatementStart, Flatten, OpenText, CloseText, Allows;
    var node := Node(ctx.kind, ctx.items);
    assert ItemOk(KindOf(ctx.outer), node);
    SpellOut(ctx);
    hide TextOf, ContextOk;
    AddOk(ctx.outer, [node]);
  }

  lemma SpellOut(ctx: Context)
    requires ctx.In?
    ensures TextOf(ctx.outer) + Flatten([Node(ctx.kind, ctx.items)]) == TextOf(ctx) + CloseText(ctx.kind)
  {
    hide Flatten, OpenText, CloseText;
    FlattenOne(Node(ctx.kind, ctx.items));
  }

  lemma FlattenOne(item: Item)
    ensures Flatten([item]) == Spell(item)
  {
    hide Spell;
    assert [item][..0] == [];
  }

  /** A closed value is the last item of its block until the semicolon follows. */
  lemma CloseValueOk(ctx: Context)
    requires ContextOk(ctx) && ctx.In? && ctx.kind.Value?
    ensures var items := ctx.outer.items + [Node(Value, ctx.items)];
            && BodyOk(KindOf(ctx.outer), items)
            && Flatten(items) == Flatten(ctx.outer.items) + OpenText(Value) + Flatten(ctx.items)
            && Settled(KindOf(ctx.outer), items + [Leaf(SEMICOLON)])
  {
    hide BodyOk, StatementStart, Flatten;
    var node, kind := Node(Value, ctx.items), KindOf(ctx.outer);
    assert kind.Brace? && ItemOk(kind, node);
    FlattenConcat(ctx.outer.items, [node]);
    FlattenOne(node);
    ValueLast(kind, ctx.outer.items, node);
  }

  lemma ValueLast(kind: Kind, items: seq<Item>, node: Item)
    requires Settled(kind, items) && ItemOk(kind, node) && IsValue(node) && StatementStart(items) && kind.Brace?
    ensures BodyOk(kind, items + [node]) && Settled(kind, items + [node] + [Leaf(SEMICOLON)])
  {
    hide StatementStart;
    ExtendBody(kind, items, node);
    ExtendBody(kind, items + [node], Leaf(SEMICOLON));
  }

  /** One more item: a value where a statement may start, and after a value a semicolon. */
  lemma ExtendBody(kind: Kind, items: seq<Item>, item: Item)
    requires BodyOk(kind, items) && ItemOk(kind, item) && (IsValue(item) ==> StatementStart(items))
    requires items != [] && IsValue(items[|items| - 1]) ==> item == Leaf(SEMICOLON)
    ensures BodyOk(kind, items + [item])
  {
    hide StatementStart;
    var all := items + [item];
    forall i | 0 <= i < |all|
      ensures ItemOk(kind, all[i])
    {
      if i < |items| { assert all[i] == items[i]; }
    }
    forall i | 0 <= i < |all| && IsValue(all[i])
      ensures StatementStart(all[..i]) && (i + 1 == |all| || all[i + 1] == Leaf(SEMICOLON))
    {
      if i < |items| {
        assert all[..i] == items[..i] && all[i] == items[i];
        if i + 1 < |items| { assert all[i + 1] == items[i + 1]; }
      } else {
        assert all[..i] == items;
      }
    }
  }

  // ---------- runs of plain bytes ----------

  predicate Quiet(b: Byte) {
    b != SLASH && !Quote(b) && b != BACKSLASH
  }

  lemma QuietIsPlain(css: Bytes, pos: nat)
    requires pos < |css| && Quiet(css[pos])
    ensures LexAt(css, pos) == Plain
  {
  }

  lemma PlainStep(css: Bytes, pos: nat)
    requires pos < |css| && LexAt(css, pos) == Plain
    ensures PlainBytes(css, pos) == [css[pos]] + PlainBytes(css, pos + 1)
  {
    hide LexAt;
  }

  lemma {:induction false} PlainRun(css: Bytes, lo: nat, hi: nat)
    requires lo <= hi <= |css| && forall j :: lo <= j < hi ==> Quiet(css[j])
    ensures PlainBytes(css, lo) == css[lo..hi] + PlainBytes(css, hi)
    decreases hi - lo
  {
    hide PlainBytes;
    if lo < hi {
      PlainRun(css, lo + 1, hi);
      QuietIsPlain(css, lo);
      PlainStep(css, lo);
      assert css[lo..hi] == [css[lo]] + css[lo + 1..hi];
    }
  }

  /** Bytes that structure nothing. */
  predicate Inert(b: Byte) {
    && Ascii(b) && b != OPEN_BRACE && b != CLOSE_BRACE && b != OPEN_PAREN && b != CLOSE_PAREN
  }

  lemma InertAddable(kind: Kind, text: Bytes)
    requires (kind.Brace? || kind.Paren?) && forall i :: 0 <= i < |text| ==> Inert(text[i])
    ensures Addable(kind, Leaves(text))
  {
  }

  /** Reading inert bytes outside values adds them as leaves. */
  lemma ReadRun(ctx: Context, css: Bytes, lo: nat, hi: nat)
    requires lo <= hi <= |css| && forall j :: lo <= j < hi ==> Quiet(css[j]) && Inert(css[j])
    requires ContextOk(ctx) && (KindOf(ctx).Brace? || KindOf(ctx).Paren?)
    ensures ContextOk(Add(ctx, Leaves(css[lo..hi])))
    ensures TextOf(Add(ctx, Leaves(css[lo..hi]))) + PlainBytes(css, hi) == TextOf(ctx) + PlainBytes(css, lo)
  {
    hide ContextOk, TextOf, Flatten, PlainBytes;
    var run := css[lo..hi];
    InertAddable(KindOf(ctx), run);
    AddOk(ctx, Leaves(run));
    FlattenLeaves(run);
    PlainRun(css, lo, hi);
  }

  // ---------- statements ----------

  /** Leaves and parentheses only. */
  predicate NoBlocks(items: seq<Item>) {
    forall i :: 0 <= i < |items| ==> items[i].Leaf? || items[i].kind.Paren?
  }

  /** The plain bytes of an accepted import or source argument, as items: blanks, and `source(none)` once in the
      root form. */
  lemma ArgumentItems(css: Bytes, st: State, name: Bytes, from: nat, end: nat) returns (items: seq<Item>)
    requires from <= end <= |css| && (name == IMPORT || name == SOURCE_RULE)
    requires Statement(css, st, name, from, end).Some?
    ensures Addable(Brace, items) && NoBlocks(items)
    ensures PlainBytes(css, from) == Flatten(items) + PlainBytes(css, end)
  {
    hide PlainBytes, Flatten, Statement, Trim;
    AcceptedArgument(css, st, name, from, end);
    var argument := Trim(css[from..end]);
    if name == IMPORT && RootForm(argument) {
      items := RootItems(css, from, end);
    } else {
      items := LiteralItems(css, from, end);
    }
  }

  lemma LiteralItems(css: Bytes, from: nat, end: nat) returns (items: seq<Item>)
    requires from <= end <= |css| && exists inner :: IsLiteral(Trim(css[from..end]), inner)
    ensures Addable(Brace, items) && NoBlocks(items)
    ensures PlainBytes(css, from) == Flatten(items) + PlainBytes(css, end)
  {
    hide Flatten, Trim, PlainBytes;
    var lo, hi := TrimmedAt(css, from, end);
    LiteralAt(css, lo, hi);
    PlainRun(css, from, lo);
    PlainRun(css, hi, end);
    TextSkips(css, lo, hi);
    var text := css[from..lo] + css[hi..end];
    items := Leaves(text);
    InertAddable(Brace, text);
    FlattenLeaves(text);
  }

  lemma LiteralAt(css: Bytes, lo: nat, hi: nat)
    requires lo <= hi <= |css| && exists inner :: IsLiteral(css[lo..hi], inner)
    ensures lo < hi && LexAt(css, lo) == Text(hi)
  {
    var text := css[lo..hi];
    var inner :| IsLiteral(text, inner);
    assert |text| == |inner| + 2;
    forall j | lo + 1 <= j < hi - 1
      ensures css[j] != BACKSLASH && !Quote(css[j])
    {
      assert css[j] == text[j - lo] == inner[j - lo - 1];
    }
    assert css[lo] == text[0] && css[hi - 1] == text[|text| - 1];
    StringEndAt(css, css[lo], lo + 1, hi - 1);
  }

  lemma TextSkips(css: Bytes, lo: nat, hi: nat)
    requires lo < |css| && LexAt(css, lo) == Text(hi)
    ensures PlainBytes(css, lo) == PlainBytes(css, hi)
  {
    hide LexAt;
  }

  lemma RootItems(css: Bytes, from: nat, end: nat) returns (items: seq<Item>)
    requires from <= end <= |css| && RootForm(Trim(css[from..end]))
    ensures Addable(Brace, items) && NoBlocks(items)
    ensures PlainBytes(css, from) == Flatten(items) + PlainBytes(css, end)
  {
    hide Flatten, Trim, PlainBytes, RootForm, LexAt, MatchesAt;
    var lo := RootAt(css, from, end);
    TextSkips(css, lo, lo + 13);
    var none := ParenItems(css, lo + 13);
    PlainRun(css, from, lo);
    PlainRun(css, lo + 26, end);
    InertAddable(Brace, css[from..lo]);
    InertAddable(Brace, css[lo + 26..end]);
    FlattenLeaves(css[from..lo]);
    FlattenLeaves(css[lo + 26..end]);
    items := Leaves(css[from..lo]) + none + Leaves(css[lo + 26..end]);
    FlattenConcat(Leaves(css[from..lo]) + none, Leaves(css[lo + 26..end]));
    FlattenConcat(Leaves(css[from..lo]), none);
  }

  /** ` source(none)` is leaves and one parenthesis. */
  lemma ParenItems(css: Bytes, at: nat) returns (items: seq<Item>)
    requires MatchesAt(css, at, SOURCE_NONE)
    ensures Addable(Brace, items) && NoBlocks(items)
    ensures PlainBytes(css, at) == Flatten(items) + PlainBytes(css, at + 13)
  {
    hide PlainBytes;
    var node := Node(Paren, Leaves(SOURCE_NONE[8..12]));
    items := Leaves(SOURCE_NONE[..7]) + [node];
    ParenSpells(node);
    InertAddable(Brace, SOURCE_NONE[..7]);
    forall j | at <= j < at + 13
      ensures css[j] == SOURCE_NONE[j - at]
    {
      assert css[at + (j - at)] == SOURCE_NONE[j - at];
    }
    assert css[at..at + 13] == SOURCE_NONE;
    PlainRun(css, at, at + 13);
  }

  lemma ParenSpells(node: Item)
    requires node == Node(Paren, Leaves(SOURCE_NONE[8..12]))
    ensures Flatten(Leaves(SOURCE_NONE[..7]) + [node]) == SOURCE_NONE && ItemOk(Brace, node)
  {
    hide Flatten;
    FlattenConcat(Leaves(SOURCE_NONE[..7]), [node]);
    FlattenLeaves(SOURCE_NONE[..7]);
    FlattenLeaves(SOURCE_NONE[8..12]);
    FlattenOne(node);
    InertAddable(Paren, SOURCE_NONE[8..12]);
    AddSettled(Paren, [], Leaves(SOURCE_NONE[8..12]));
    assert [] + Leaves(SOURCE_NONE[8..12]) == Leaves(SOURCE_NONE[8..12]);
  }

  // ---------- one round ----------

  /** What `ctx` holds and what is still to be read do not change together. */
  predicate SameText(css: Bytes, a: Context, pos: nat, b: Context, next: nat) {
    TextOf(b) + PlainBytes(css, next) == TextOf(a) + PlainBytes(css, pos)
  }

  lemma FitsKind(css: Bytes, ctx: Context, st: State)
    requires Tracks(css, ctx, st)
    ensures st.custom.None? <==> KindOf(ctx).Brace? || KindOf(ctx).Paren?
    ensures st.custom == Some([]) <==> KindOf(ctx).Value?
    ensures st.custom.None? && st.paren == 0 <==> KindOf(ctx).Brace?
  {
    hide ContextOk, StatementStart;
  }

  /** Around a value there is a block, or nothing. */
  lemma FitsAroundValue(css: Bytes, ctx: Context, st: State)
    requires Tracks(css, ctx, st) && st.custom == Some([])
    ensures ctx.In? && ctx.kind.Value? && st.paren == 0 && Fits(ctx.outer, st.depth, 0, None)
    ensures st.depth == 0 ==> ctx.outer.Top?
    ensures st.depth > 0 ==> ctx.outer.In? && ctx.outer.kind.Brace? && Fits(ctx.outer.outer, st.depth - 1, 0, None)
  {
    hide ContextOk, StatementStart, InLineEnd;
    assert Fits(ctx.outer, st.depth, 0, None);
  }

  lemma FitsAroundGroup(css: Bytes, ctx: Context, st: State)
    requires Tracks(css, ctx, st) && st.custom.Some? && st.custom.value != []
    ensures var closers := st.custom.value;
            && ctx.In? && ctx.kind.Group? && Closer(ctx.kind.open) == Some(closers[|closers| - 1])
            && Fits(ctx.outer, st.depth, st.paren, Some(closers[..|closers| - 1]))
  {
    hide ContextOk, StatementStart;
  }

  lemma FitsOpenGroup(ctx: Context, st: State, open: Byte)
    requires Fits(ctx, st.depth, st.paren, st.custom) && st.custom.Some? && Closer(open).Some?
    ensures Fits(In(ctx, Group(open), []), st.depth, st.paren, Some(st.custom.value + [Closer(open).value]))
  {
    var closers := st.custom.value;
    assert (closers + [Closer(open).value])[..|closers|] == closers;
  }

  /** Reading one plain byte as a leaf. */
  lemma ReadLeaf(css: Bytes, ctx: Context, pos: nat) returns (next: Context)
    requires pos < |css| && LexAt(css, pos) == Plain && ContextOk(ctx) && LeafOk(KindOf(ctx), css[pos])
    ensures next == Add(ctx, [Leaf(css[pos])]) && ContextOk(next) && SameText(css, ctx, pos, next, pos + 1)
  {
    hide ContextOk, TextOf, LexAt, PlainBytes, LeafOk;
    next := Add(ctx, [Leaf(css[pos])]);
    AddLeaf(ctx, css[pos]);
    PlainStep(css, pos);
  }

  lemma ReadOpen(css: Bytes, ctx: Context, pos: nat, kind: Kind) returns (next: Context)
    requires pos < |css| && LexAt(css, pos) == Plain && OpenText(kind) == [css[pos]]
    requires ContextOk(ctx) && Allows(KindOf(ctx), kind)
    ensures next == In(ctx, kind, []) && ContextOk(next) && SameText(css, ctx, pos, next, pos + 1)
  {
    hide ContextOk, TextOf, LexAt, PlainBytes, Allows;
    next := In(ctx, kind, []);
    PushOk(ctx, kind);
    PlainStep(css, pos);
  }

  lemma ReadClose(css: Bytes, ctx: Context, pos: nat) returns (next: Context)
    requires pos < |css| && LexAt(css, pos) == Plain
    requires ContextOk(ctx) && ctx.In? && !ctx.kind.Value? && CloseText(ctx.kind) == [css[pos]]
    ensures next == Close(ctx) && ContextOk(next) && SameText(css, ctx, pos, next, pos + 1)
  {
    hide ContextOk, TextOf, LexAt, PlainBytes;
    next := Close(ctx);
    CloseOk(ctx);
    PlainStep(css, pos);
  }

  /** A semicolon ends a value. */
  lemma ReadValueEnd(css: Bytes, ctx: Context, pos: nat) returns (next: Context)
    requires At(css, pos, SEMICOLON) && LexAt(css, pos) == Plain && ContextOk(ctx) && ctx.In? && ctx.kind.Value?
    ensures next == Add(Close(ctx), [Leaf(SEMICOLON)]) && ContextOk(next) && SameText(css, ctx, pos, next, pos + 1)
  {
    hide TextOf, LexAt, PlainBytes, Settled, Flatten, StatementStart;
    next := Add(Close(ctx), [Leaf(SEMICOLON)]);
    CloseValueOk(ctx);
    assert ContextOk(next);
    PlainStep(css, pos);
    ValueEndText(ctx);
  }

  lemma ValueEndText(ctx: Context)
    requires ContextOk(ctx) && ctx.In? && ctx.kind.Value?
    ensures TextOf(Add(Close(ctx), [Leaf(SEMICOLON)])) == TextOf(ctx) + [SEMICOLON]
  {
    hide ContextOk, Flatten, TextOf;
    SpellOut(ctx);
    AddText(ctx.outer, [Node(ctx.kind, ctx.items)]);
    AddText(Close(ctx), [Leaf(SEMICOLON)]);
    FlattenOne(Leaf(SEMICOLON));
  }

  lemma FitsAdd(ctx: Context, items: seq<Item>, depth: nat, paren: nat, custom: Option<Bytes>)
    ensures Fits(ctx.(items := items), depth, paren, custom) == Fits(ctx, depth, paren, custom)
  {
  }

  lemma SemicolonStarts(items: seq<Item>)
    ensures StatementStart(items + [Leaf(SEMICOLON)])
  {
  }

  lemma CustomRound(css: Bytes, ctx: Context, st: State) returns (next: Context)
    requires st.pos < |css| && LexAt(css, st.pos) == Plain && Ascii(css[st.pos]) && Tracks(css, ctx, st) && st.custom.Some?
    requires var r := InCustom(st, css[st.pos]); r.Some? && r.value.pos > st.pos
    ensures var after := InCustom(st, css[st.pos]).value;
            Tracks(css, next, after) && SameText(css, ctx, st.pos, next, after.pos)
  {
    hide ContextOk, LexAt, StatementStart, SameText, Fits;
    FitsKind(css, ctx, st);
    var b := css[st.pos];
    var closers := st.custom.value;
    if Closer(b).Some? {
      next := ReadOpen(css, ctx, st.pos, Group(b));
      FitsOpenGroup(ctx, st, b);
    } else if IsCloser(b) && closers != [] {
      FitsAroundGroup(css, ctx, st);
      next := ReadClose(css, ctx, st.pos);
      FitsAdd(ctx.outer, next.items, st.depth, st.paren, Some(closers[..|closers| - 1]));
    } else if b == SEMICOLON && closers == [] {
      FitsAroundValue(css, ctx, st);
      next := ReadValueEnd(css, ctx, st.pos);
      SemicolonStarts(Close(ctx).items);
      FitsAdd(ctx.outer, next.items, st.depth, 0, None);
    } else {
      next := ReadLeaf(css, ctx, st.pos);
      FitsAdd(ctx, next.items, st.depth, st.paren, st.custom);
    }
  }

  lemma BlockStarts(items: seq<Item>, body: seq<Item>)
    ensures StatementStart(items + [Node(Brace, body)])
  {
  }

  lemma BlankKeepsStart(css: Bytes, items: seq<Item>, pos: nat)
    requires pos < |css| && BlankAt(css, pos) && (StatementStart(items) || InLineEnd(css, items, pos))
    ensures var all := items + [Leaf(css[pos])];
            StatementStart(all) || InLineEnd(css, all, pos + 1)
  {
    var all := items + [Leaf(css[pos])];
    assert all[..|items|] == items;
    if items != [] {
      assert all[..|items| - 1] == items[..|items| - 1];
    }
  }

  /** Two hyphens at a statement start open a value. */
  lemma ReadValueStart(css: Bytes, ctx: Context, pos: nat) returns (next: Context)
    requires At(css, pos, HYPHEN) && At(css, pos + 1, HYPHEN)
    requires ContextOk(ctx) && KindOf(ctx).Brace? && StatementStart(ctx.items)
    ensures next == In(ctx, Value, []) && ContextOk(next) && SameText(css, ctx, pos, next, pos + 2)
  {
    hide ContextOk, TextOf, PlainBytes, StatementStart;
    next := In(ctx, Value, []);
    PushOk(ctx, Value);
    PlainRun(css, pos, pos + 2);
    assert css[pos..pos + 2] == OpenText(Value);
  }

  lemma RuleRound(css: Bytes, ctx: Context, st: State) returns (next: Context)
    requires st.pos < |css| && LexAt(css, st.pos) == Plain && Ascii(css[st.pos]) && Tracks(css, ctx, st) && st.custom.None?
    requires InRule(css, st).Some? && css[st.pos] != AT
    ensures var after := InRule(css, st).value;
            Tracks(css, next, after) && SameText(css, ctx, st.pos, next, after.pos)
  {
    hide ContextOk, LexAt, StatementStart, SameText;
    FitsKind(css, ctx, st);
    var b := css[st.pos];
    if !st.content && b == HYPHEN && At(css, st.pos + 1, HYPHEN) {
      next := ReadValueStart(css, ctx, st.pos);
    } else if b == OPEN_PAREN {
      next := ReadOpen(css, ctx, st.pos, Paren);
    } else if b == CLOSE_PAREN {
      next := ReadClose(css, ctx, st.pos);
      FitsAdd(ctx.outer, next.items, st.depth, st.paren - 1, None);
    } else if b == OPEN_BRACE {
      next := ReadOpen(css, ctx, st.pos, Brace);
      assert StatementStart(next.items) by { EmptyStarts(); }
    } else if b == CLOSE_BRACE {
      next := ReadClose(css, ctx, st.pos);
      FitsAdd(ctx.outer, next.items, st.depth - 1, 0, None);
      BlockStarts(ctx.outer.items, ctx.items);
    } else {
      next := ReadLeaf(css, ctx, st.pos);
      FitsAdd(ctx, next.items, st.depth, st.paren, None);
      if b == SEMICOLON && st.paren == 0 {
        SemicolonStarts(ctx.items);
      } else if BlankAt(css, st.pos) && !st.content {
        BlankKeepsStart(css, ctx.items, st.pos);
      }
    }
  }

  lemma EmptyStarts()
    ensures StatementStart([])
  {
  }

  /** An import or source statement starts a statement, and the next round too. */
  lemma GraphRuleStarts(css: Bytes, st: State, name: Bytes, end: nat)
    requires st.pos < end <= |css| && GraphRule(css, st, name, end).Some?
    ensures var after := GraphRule(css, st, name, end).value;
            !st.content && after == st.(pos := after.pos, content := false, found := after.found)
  {
    hide Statement;
  }

  lemma AtRound(css: Bytes, ctx: Context, st: State) returns (next: Context)
    requires st.pos < |css| && css[st.pos] == AT && Tracks(css, ctx, st) && st.custom.None? && AtRule(css, st).Some?
    ensures var after := AtRule(css, st).value;
            Tracks(css, next, after) && SameText(css, ctx, st.pos, next, after.pos)
  {
    hide ContextOk, StatementStart, SameText, RuleEnd, GraphRule;
    FitsKind(css, ctx, st);
    var end := RuleEnd(css, st.pos + 1).value;
    var name := css[st.pos + 1..end];
    next := ReadName(css, ctx, st.pos, end);
    FitsAdd(ctx, next.items, st.depth, st.paren, None);
    if name == IMPORT || name == SOURCE_RULE {
      GraphRuleStarts(css, st, name, end);
      next := ReadStatement(css, ctx, next, st, name, end);
      FitsAdd(ctx, next.items, st.depth, st.paren, None);
    }
  }

  lemma ReadName(css: Bytes, ctx: Context, pos: nat, end: nat) returns (next: Context)
    requires pos < |css| && css[pos] == AT && ContextOk(ctx) && (KindOf(ctx).Brace? || KindOf(ctx).Paren?)
    requires RuleEnd(css, pos + 1) == Some(end)
    ensures ContextOk(next) && next == Add(ctx, Leaves(css[pos..end])) && SameText(css, ctx, pos, next, end)
  {
    hide ContextOk, RuleEnd, TextOf, PlainBytes;
    next := Add(ctx, Leaves(css[pos..end]));
    ReadRun(ctx, css, pos, end);
  }

  /** The argument and the semicolon of an import or source statement. */
  lemma ReadStatement(css: Bytes, first: Context, ctx: Context, st: State, name: Bytes, end: nat)
    returns (next: Context)
    requires st.pos < end <= |css| && (name == IMPORT || name == SOURCE_RULE) && GraphRule(css, st, name, end).Some?
    requires ContextOk(ctx) && KindOf(ctx).Brace? && SameText(css, first, st.pos, ctx, end)
    ensures ContextOk(next) && next == ctx.(items := next.items) && StatementStart(next.items)
    ensures SameText(css, first, st.pos, next, GraphRule(css, st, name, end).value.pos)
  {
    hide ContextOk, Statement, TextOf, PlainBytes, StatementStart, Flatten, Addable;
    var stop := StatementEnd(css, end).value;
    var items := ArgumentItems(css, st, name, end, stop);
    AddOk(ctx, items);
    next := Add(ctx, items);
    QuietIsPlain(css, stop);
    var last := ReadLeaf(css, next, stop);
    SemicolonStarts(next.items);
    next := last;
  }

  // ---------- the whole file ----------

  /** A round that moves keeps the open brackets in step with the scanner. */
  lemma RoundParses(css: Bytes, ctx: Context, st: State) returns (next: Context)
    requires st.pos < |css| && Tracks(css, ctx, st) && Round(css, st).Some? && Round(css, st).value.pos > st.pos
    ensures var after := Round(css, st).value;
            Tracks(css, next, after) && SameText(css, ctx, st.pos, next, after.pos)
  {
    hide ContextOk, StatementStart, AtRule, Fits;
    match LexAt(css, st.pos)
    case Plain =>
      hide LexAt, SameText;
      if st.custom.Some? {
        next := CustomRound(css, ctx, st);
      } else if css[st.pos] == AT {
        next := AtRound(css, ctx, st);
      } else {
        next := RuleRound(css, ctx, st);
      }
    case _ => next := ctx;
  }

  /** A value that ends with its block: the brace is read twice, once to end the value, once to close the block. */
  lemma BlockEndParses(css: Bytes, ctx: Context, st: State) returns (next: Context)
    requires st.pos < |css| && Tracks(css, ctx, st) && Round(css, st).Some? && Round(css, st).value.pos == st.pos
    requires Round(css, Round(css, st).value).Some?
    ensures var after := Round(css, Round(css, st).value).value;
            after.pos == st.pos + 1 && Tracks(css, next, after) && SameText(css, ctx, st.pos, next, after.pos)
  {
    hide ContextOk, StatementStart, AtRule, PlainBytes, Flatten, BodyOk;
    hide Fits;
    assert css[st.pos] == CLOSE_BRACE && st.custom == Some([]) && LexAt(css, st.pos) == Plain;
    FitsAroundValue(css, ctx, st);
    var items := ctx.outer.items + [Node(Value, ctx.items)];
    next := CloseBlock(ctx, items);
    FitsAdd(ctx.outer.outer, next.items, st.depth - 1, 0, None);
    PlainStep(css, st.pos);
  }

  /** Close a value and the block around it. */
  lemma CloseBlock(ctx: Context, items: seq<Item>) returns (next: Context)
    requires ContextOk(ctx) && ctx.In? && ctx.kind.Value? && ctx.outer.In? && ctx.outer.kind.Brace?
    requires items == ctx.outer.items + [Node(Value, ctx.items)]
    ensures next == Add(ctx.outer.outer, [Node(Brace, items)]) && ContextOk(next) && StatementStart(next.items)
    ensures TextOf(next) == TextOf(ctx) + [CLOSE_BRACE]
  {
    hide BodyOk, Flatten, StatementStart;
    CloseValueOk(ctx);
    var node := Node(Brace, items);
    assert ItemOk(KindOf(ctx.outer.outer), node);
    AddOk(ctx.outer.outer, [node]);
    FlattenOne(node);
    BlockStarts(ctx.outer.outer.items, items);
    next := Add(ctx.outer.outer, [node]);
  }

  lemma {:induction false} ScanParses(css: Bytes, ctx: Context, st: State) returns (items: seq<Item>)
    requires st.pos <= |css| && Scan(css, st).Some? && Tracks(css, ctx, st)
    ensures BodyOk(Brace, items) && Flatten(items) == TextOf(ctx) + PlainBytes(css, st.pos)
    decreases |css| - st.pos, if st.custom.Some? then 1 else 0
  {
    hide ContextOk, StatementStart, Fits, BodyOk, Flatten, TextOf, Round;
    if st.pos >= |css| {
      items := EndParses(css, ctx, st);
    } else {
      var after := Round(css, st).value;
      if after.pos > st.pos {
        var next := RoundParses(css, ctx, st);
        items := ScanParses(css, next, after);
      } else {
        var next := BlockEndParses(css, ctx, st);
        items := ScanParses(css, next, Round(css, after).value);
      }
    }
  }

  lemma EndParses(css: Bytes, ctx: Context, st: State) returns (items: seq<Item>)
    requires Tracks(css, ctx, st) && AtEnd(st).Some?
    ensures BodyOk(Brace, items) && Flatten(items) == TextOf(ctx)
  {
    hide BodyOk, StatementStart, Flatten;
    if ctx.Top? {
      items := ctx.items;
    } else {
      FitsAroundValue(css, ctx, st);
      CloseValueOk(ctx);
      items := ctx.outer.items + [Node(Value, ctx.items)];
    }
  }

  /** Accepted CSS is well nested. */
  lemma AcceptedIsNested(css: Bytes)
    requires Accepted(css).Some?
    ensures exists items :: BodyOk(Brace, items) && Flatten(items) == PlainBytes(css, Start(css).pos)
  {
    var items := ScanParses(css, Top([]), Start(css));
    assert PlainBytes(css, Start(css).pos) == [] + PlainBytes(css, Start(css).pos);
  }

  // ---------- what nesting means for the bytes ----------

  /** Count brackets from `level` on; `None` when a closing one comes too early. */
  function Level(text: Bytes, open: Byte, close: Byte, level: nat): Option<nat> {
    if text == [] then Some(level)
    else if text[0] == open then Level(text[1..], open, close, level + 1)
    else if text[0] == close then if level == 0 then None else Level(text[1..], open, close, level - 1)
    else Level(text[1..], open, close, level)
  }

  lemma {:induction false} LevelConcat(a: Bytes, b: Bytes, open: Byte, close: Byte, level: nat)
    ensures Level(a + b, open, close, level)
         == match Level(a, open, close, level)
            case None => None
            case Some(reached) => Level(b, open, close, reached)
    decreases |a|
  {
    if a == [] {
      assert a + b == b;
    } else {
      assert (a + b)[1..] == a[1..] + b;
      if a[0] == open {
        LevelConcat(a[1..], b, open, close, level + 1);
      } else if a[0] != close {
        LevelConcat(a[1..], b, open, close, level);
      } else if level > 0 {
        LevelConcat(a[1..], b, open, close, level - 1);
      }
    }
  }

  lemma LevelOne(b: Byte, open: Byte, close: Byte, level: nat)
    ensures Level([b], open, close, level)
         == if b == open then Some(level + 1)
            else if b != close then Some(level)
            else if level == 0 then None else Some(level - 1)
  {
    assert [b][1..] == [];
  }

  lemma {:induction false} LevelFlat(text: Bytes, open: Byte, close: Byte, level: nat)
    requires open !in text && close !in text
    ensures Level(text, open, close, level) == Some(level)
  {
    if text != [] {
      LevelFlat(text[1..], open, close, level);
    }
  }

  /** No value holds a closing parenthesis of its own. */
  predicate NoStray(kind: Kind, items: seq<Item>)
    decreases items
  {
    forall i :: 0 <= i < |items| ==> NoStrayIn(kind, items[i])
  }

  predicate NoStrayIn(kind: Kind, item: Item)
    decreases item
  {
    match item
    case Leaf(b) => !(kind.Value? && b == CLOSE_PAREN)
    case Node(inner, body) => NoStray(inner, body)
  }

  /** Inside parentheses and groups there are no values. */
  lemma {:induction false} NoValuesNoStray(kind: Kind, items: seq<Item>)
    requires BodyOk(kind, items) && (kind.Paren? || kind.Group?)
    ensures NoStray(kind, items)
    decreases items
  {
    hide StatementStart;
    forall i | 0 <= i < |items|
      ensures NoStrayIn(kind, items[i])
    {
      assert ItemOk(kind, items[i]);
      if items[i].Node? {
        NoValuesNoStray(items[i].kind, items[i].body);
      }
    }
  }

  predicate Counted(open: Byte, close: Byte) {
    (open == OPEN_BRACE && close == CLOSE_BRACE) || (open == OPEN_PAREN && close == CLOSE_PAREN)
  }

  lemma {:induction false} BodyLevel(kind: Kind, items: seq<Item>, open: Byte, close: Byte, level: nat)
    requires BodyOk(kind, items) && Counted(open, close) && (open == OPEN_PAREN ==> NoStray(kind, items))
    ensures Level(Flatten(items), open, close, level) == Some(level)
    decreases items
  {
    hide StatementStart, Spell, Level;
    if items == [] {
      assert Level([], open, close, level) == Some(level) by { EmptyLevel(open, close, level); }
    } else {
      var n := |items| - 1;
      ButLast(kind, items);
      BodyLevel(kind, items[..n], open, close, level);
      ItemLevel(kind, items[n], open, close, level);
      LevelConcat(Flatten(items[..n]), Spell(items[n]), open, close, level);
    }
  }

  lemma EmptyLevel(open: Byte, close: Byte, level: nat)
    ensures Level([], open, close, level) == Some(level)
  {
  }

  lemma ButLast(kind: Kind, items: seq<Item>)
    requires BodyOk(kind, items) && items != []
    ensures var n := |items| - 1;
            && BodyOk(kind, items[..n]) && ItemOk(kind, items[n])
            && (NoStray(kind, items) <==> NoStray(kind, items[..n]) && NoStrayIn(kind, items[n]))
  {
    hide StatementStart, ItemOk, NoStray;
    var n := |items| - 1;
    forall i | 0 <= i < n && IsValue(items[..n][i])
      ensures StatementStart(items[..n][..i]) && (i + 1 == n || items[..n][i + 1] == Leaf(SEMICOLON))
    {
      assert items[..n][..i] == items[..i] && IsValue(items[i]);
    }
    StrayButLast(kind, items);
  }

  lemma StrayButLast(kind: Kind, items: seq<Item>)
    requires items != []
    ensures var n := |items| - 1;
            NoStray(kind, items) <==> NoStray(kind, items[..n]) && NoStrayIn(kind, items[n])
  {
    hide NoStrayIn;
    var n := |items| - 1;
    assert forall i :: 0 <= i < n ==> items[..n][i] == items[i];
    if NoStray(kind, items[..n]) && NoStrayIn(kind, items[n]) {
      forall i | 0 <= i < |items|
        ensures NoStrayIn(kind, items[i])
      {
        if i < n { assert NoStrayIn(kind, items[..n][i]); }
      }
    }
  }

  lemma {:induction false} ItemLevel(kind: Kind, item: Item, open: Byte, close: Byte, level: nat)
    requires ItemOk(kind, item) && Counted(open, close) && (open == OPEN_PAREN ==> NoStrayIn(kind, item))
    ensures Level(Spell(item), open, close, level) == Some(level)
    decreases item
  {
    hide StatementStart, Level, BodyOk, NoStray, Flatten;
    match item
    case Leaf(b) => LevelOne(b, open, close, level);
    case Node(inner, body) =>
      var inside := if OpenText(inner) == [open] then level + 1 else level;
      BodyLevel(inner, body, open, close, inside);
      BracketLevel(kind, inner, open, close, level);
      LevelConcat(OpenText(inner), Flatten(body), open, close, level);
      LevelConcat(OpenText(inner) + Flatten(body), CloseText(inner), open, close, level);
  }

  /** The opening text counts one up exactly when the closing text counts one down. */
  lemma BracketLevel(kind: Kind, inner: Kind, open: Byte, close: Byte, level: nat)
    requires Allows(kind, inner) && Counted(open, close)
    ensures var inside := if OpenText(inner) == [open] then level + 1 else level;
            && Level(OpenText(inner), open, close, level) == Some(inside)
            && Level(CloseText(inner), open, close, inside) == Some(level)
  {
    if inner.Value? {
      LevelOne(HYPHEN, open, close, level);
      assert [HYPHEN, HYPHEN][1..] == [HYPHEN];
    } else {
      LevelOne(OpenText(inner)[0], open, close, level);
      LevelOne(CloseText(inner)[0], open, close, if OpenText(inner) == [open] then level + 1 else level);
    }
  }

  /** A stray closing parenthesis is unmatched in the file: parentheses are never open around a value. */
  lemma {:induction false} StrayLevel(kind: Kind, items: seq<Item>)
    requires BodyOk(kind, items) && (kind.Brace? || kind.Value?) && !NoStray(kind, items)
    ensures Level(Flatten(items), OPEN_PAREN, CLOSE_PAREN, 0) == None
    decreases items
  {
    hide StatementStart, Spell, Level;
    assert items != [];
    var n := |items| - 1;
    ButLast(kind, items);
    LevelConcat(Flatten(items[..n]), Spell(items[n]), OPEN_PAREN, CLOSE_PAREN, 0);
    if NoStray(kind, items[..n]) {
      BodyLevel(kind, items[..n], OPEN_PAREN, CLOSE_PAREN, 0);
      StrayItemLevel(kind, items[n]);
    } else {
      StrayLevel(kind, items[..n]);
    }
  }

  lemma {:induction false} StrayItemLevel(kind: Kind, item: Item)
    requires ItemOk(kind, item) && (kind.Brace? || kind.Value?) && !NoStrayIn(kind, item)
    ensures Level(Spell(item), OPEN_PAREN, CLOSE_PAREN, 0) == None
    decreases item
  {
    hide StatementStart, Level, BodyOk, NoStray, Flatten;
    match item
    case Leaf(b) => LevelOne(b, OPEN_PAREN, CLOSE_PAREN, 0);
    case Node(inner, body) =>
      if inner.Paren? || inner.Group? {
        NoValuesNoStray(inner, body);
      } else {
        StrayLevel(inner, body);
        BracketLevel(kind, inner, OPEN_PAREN, CLOSE_PAREN, 0);
        LevelConcat(OpenText(inner), Flatten(body), OPEN_PAREN, CLOSE_PAREN, 0);
        LevelConcat(OpenText(inner) + Flatten(body), CloseText(inner), OPEN_PAREN, CLOSE_PAREN, 0);
      }
  }

  /** In an accepted file braces never close too early and all close. Parentheses do too exactly when no custom
      property value holds a closing parenthesis of its own, however the file is parsed. */
  lemma AcceptedBalances(css: Bytes)
    requires Accepted(css).Some?
    ensures var text := PlainBytes(css, Start(css).pos);
            && Level(text, OPEN_BRACE, CLOSE_BRACE, 0) == Some(0)
            && (exists items :: BodyOk(Brace, items) && Flatten(items) == text)
            && forall items :: BodyOk(Brace, items) && Flatten(items) == text ==>
                 (Level(text, OPEN_PAREN, CLOSE_PAREN, 0) == Some(0) <==> NoStray(Brace, items))
  {
    hide BodyOk, Flatten, Level, NoStray, PlainBytes, Accepted;
    AcceptedIsNested(css);
    var text := PlainBytes(css, Start(css).pos);
    forall items | BodyOk(Brace, items) && Flatten(items) == text
      ensures Level(text, OPEN_BRACE, CLOSE_BRACE, 0) == Some(0)
      ensures Level(text, OPEN_PAREN, CLOSE_PAREN, 0) == Some(0) <==> NoStray(Brace, items)
    {
      ForestBalances(items);
    }
  }

  lemma ForestBalances(items: seq<Item>)
    requires BodyOk(Brace, items)
    ensures Level(Flatten(items), OPEN_BRACE, CLOSE_BRACE, 0) == Some(0)
    ensures Level(Flatten(items), OPEN_PAREN, CLOSE_PAREN, 0) == Some(0) <==> NoStray(Brace, items)
  {
    hide BodyOk, Flatten, Level, NoStray;
    BodyLevel(Brace, items, OPEN_BRACE, CLOSE_BRACE, 0);
    if NoStray(Brace, items) {
      BodyLevel(Brace, items, OPEN_PAREN, CLOSE_PAREN, 0);
    } else {
      StrayLevel(Brace, items);
    }
  }

  /** `--a:)` is accepted although its parenthesis has no partner. */
  lemma StrayParenthesisAccepted()
    ensures var css := [HYPHEN, HYPHEN, 97, 58, CLOSE_PAREN];
            && css == Lit("--a:)") && Accepted(css) == Some(Directives([], [], 0))
            && Level(PlainBytes(css, 0), OPEN_PAREN, CLOSE_PAREN, 0) == None
  {
    var css := [HYPHEN, HYPHEN, 97, 58, CLOSE_PAREN];
    var st := Start(css);
    assert css[0] != BOM[0];
    assert st.pos == 0;
    var none := Directives([], [], 0);
    var a, b, c, d := State(2, 0, 0, true, Some([]), none), State(3, 0, 0, true, Some([]), none),
        State(4, 0, 0, true, Some([]), none), State(5, 0, 0, true, Some([]), none);
    assert Scan(css, d) == Some(none);
    assert Round(css, c) == Some(d);
    assert Scan(css, c) == Some(none);
    assert Round(css, b) == Some(c);
    assert Scan(css, b) == Some(none);
    assert Round(css, a) == Some(b);
    assert Scan(css, a) == Some(none);
    assert Round(css, st) == Some(a);
    StrayCounts(css);
  }

  lemma StrayCounts(css: Bytes)
    requires css == [HYPHEN, HYPHEN, 97, 58, CLOSE_PAREN]
    ensures Level(PlainBytes(css, 0), OPEN_PAREN, CLOSE_PAREN, 0) == None
  {
    PlainRun(css, 0, 5);
    assert PlainBytes(css, 0) == css[0..5] == css[..4] + [CLOSE_PAREN];
    LevelConcat(css[..4], [CLOSE_PAREN], OPEN_PAREN, CLOSE_PAREN, 0);
    LevelFlat(css[..4], OPEN_PAREN, CLOSE_PAREN, 0);
    LevelOne(CLOSE_PAREN, OPEN_PAREN, CLOSE_PAREN, 0);
  }
}
