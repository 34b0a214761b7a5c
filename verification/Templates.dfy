/** The placeholder grammar of authored text (template.rs). */
module Templates {
  import opened Wrappers

  datatype Kind = Port | Host | StateDir | Secret

  datatype Token =
    | Literal(text: string)
    | Reference(kind: Kind, name: Option<string>)
    | Malformed(kind: Kind, empty: bool)

  const OPENER := "${"

  function Prefix(kind: Kind): string {
    match kind
    case Port => "${port"
    case Host => "${host"
    case StateDir => "${stateDir"
    case Secret => "${secret"
  }

  /** The text a token stands for; a malformed one stands for its opener only. */
  function Source(t: Token): string {
    match t
    case Literal(text) => text
    case Reference(kind, None) => Prefix(kind) + "}"
    case Reference(kind, Some(name)) => Prefix(kind) + ":" + name + "}"
    case Malformed(_, _) => OPENER
  }

  /** The texts of the first `n` tokens, end to end. */
  function SourceUpTo(tokens: seq<Token>, n: nat): string
    requires n <= |tokens|
  {
    if n == 0 then "" else SourceUpTo(tokens, n - 1) + Source(tokens[n - 1])
  }

  // ---- What one opener means ----

  function Find(s: string, c: char): (r: Option<nat>)
    ensures r.Some? ==> r.value < |s| && s[r.value] == c && c !in s[..r.value]
    ensures r.None? ==> c !in s
  {
    if s == "" then None
    else if s[0] == c then Some(0)
    else match Find(s[1..], c) case None => None case Some(i) => Some(i + 1)
  }

  /** The name between a colon and the next closing brace, if it is one. */
  function Name(payload: string): Option<string> {
    match Find(payload, '}')
    case None => None
    case Some(end) =>
      var name := payload[..end];
      if name == "" || '{' in name || '}' in name then None else Some(name)
  }

  /** The text behind one prefix. */
  function After(kind: Kind, rest: string): Option<Token> {
    if rest != "" && rest[0] == '}' && kind != Secret then Some(Reference(kind, None))
    else if rest != "" && rest[0] == ':' && kind != StateDir then
      match Name(rest[1..])
      case Some(name) => Some(Reference(kind, Some(name)))
      case None => Some(Malformed(kind, Find(rest[1..], '}') == Some(0)))
    else if rest == "" && kind != Secret then Some(Malformed(kind, false))
    else None
  }

  function Try(kind: Kind, text: string): Option<Token> {
    var prefix := Prefix(kind);
    if prefix <= text then After(kind, text[|prefix|..]) else None
  }

  function OrElse(a: Option<Token>, b: Option<Token>): Option<Token> {
    if a.Some? then a else b
  }

  /** The token an opener begins, in the grammar's order of kinds. */
  function Recognize(text: string): Option<Token> {
    OrElse(Try(Port, text), OrElse(Try(Host, text), OrElse(Try(StateDir, text), Try(Secret, text))))
  }

  predicate OpensAt(value: string, at: nat) {
    at + 1 < |value| && value[at] == '$' && value[at + 1] == '{'
  }

  /** What begins at each position of the text. */
  function Meanings(value: string): (m: seq<Option<Token>>)
    ensures |m| == |value|
    ensures forall i :: 0 <= i < |m| ==> m[i] == Recognize(value[i..])
  {
    seq(|value|, i requires 0 <= i < |value| => Recognize(value[i..]))
  }

  // ---- What a tokenization is ----

  ghost predicate NothingBegins(m: seq<Option<Token>>, from: nat, to: nat) {
    forall i :: from <= i < to ==> i < |m| && m[i] == None
  }

  /** A stretch of text is a token: a literal in which nothing begins, or what
      begins there and its own text. */
  ghost predicate Stands(value: string, m: seq<Option<Token>>, at: nat, end: nat, t: Token) {
    && at < end <= |value| == |m|
    && if t.Literal? then t.text == value[at..end] && NothingBegins(m, at, end)
       else m[at] == Some(t) && Spells(value, at, end, t)
  }

  ghost predicate Spells(value: string, at: nat, end: nat, t: Token)
    requires at <= end <= |value|
  {
    end == at + |Source(t)| && value[at..end] == Source(t)
  }

  /** Tokens placed end to end from the start of the text, no two literals adjacent. */
  ghost predicate Placed(value: string, m: seq<Option<Token>>, tokens: seq<Token>, offsets: seq<nat>, end: nat) {
    && |offsets| == |tokens| + 1 && offsets[0] == 0 && offsets[|tokens|] == end <= |value|
    && forall k :: 0 <= k < |tokens| ==> PlacedAt(value, m, tokens, offsets, k)
  }

  ghost predicate PlacedAt(value: string, m: seq<Option<Token>>, tokens: seq<Token>, offsets: seq<nat>, k: nat)
    requires k < |tokens| && |offsets| == |tokens| + 1
  {
    && Stands(value, m, offsets[k], offsets[k + 1], tokens[k])
    && (k + 1 < |tokens| && tokens[k].Literal? ==> !tokens[k + 1].Literal?)
  }

  /** The whole text, token by token, at these offsets. */
  ghost predicate IsTokenization(value: string, tokens: seq<Token>, offsets: seq<nat>) {
    Placed(value, Meanings(value), tokens, offsets, |value|)
  }

  // ---- What the grammar recognizes ----

  /** The text is the token's own and has no opener but its own. */
  ghost predicate Fits(t: Token, text: string) {
    && !t.Literal? && |Source(t)| >= 2 && Source(t) <= text && OPENER <= text
    && Source(t)[|Source(t)| - 1] != '$' && forall j :: 2 <= j < |Source(t)| ==> Source(t)[j] != '{'
  }

  lemma {:induction false} Joined(a: string, b: string, c: string, d: string)
    ensures a + (b + c + d) == a + b + c + d
  {
  }

  lemma {:induction false} PrefixThenPrefix(a: string, b: string, text: string)
    requires a <= text && b <= text[|a|..]
    ensures a + b <= text
  {
    assert text == a + text[|a|..];
  }

  lemma {:induction false} PrefixAt(value: string, at: nat, s: string)
    requires at <= |value| && s <= value[at..]
    ensures at + |s| <= |value| && value[at..at + |s|] == s
  {
    assert value[at..at + |s|] == value[at..][..|s|];
  }

  lemma {:induction false} NamedFits(kind: Kind, rest: string, name: string)
    requires rest != "" && rest[0] == ':' && Name(rest[1..]) == Some(name)
    ensures ":" + name + "}" <= rest && '{' !in name
  {
    var end := Find(rest[1..], '}').value;
    assert rest[..end + 2] == ":" + rest[1..][..end] + "}";
  }

  lemma {:induction false} OpenerFirst(kind: Kind, text: string)
    requires Prefix(kind) <= text
    ensures OPENER <= text
  {
    assert Prefix(kind)[..2] == OPENER && text[..2] == Prefix(kind)[..2];
  }

  lemma {:induction false} NamedSource(kind: Kind, name: string)
    requires '{' !in name
    ensures var source := Source(Reference(kind, Some(name)));
      && |source| == |Prefix(kind)| + |name| + 2 && source[|source| - 1] == '}'
      && forall j :: 2 <= j < |source| ==> source[j] != '{'
  {
    var source: string := Source(Reference(kind, Some(name)));
    var n := |Prefix(kind)|;
    forall j | 2 <= j < |source| ensures source[j] != '{' {
      if n + 1 <= j < n + 1 + |name| { assert source[j] == name[j - n - 1] && name[j - n - 1] in name; }
    }
  }

  lemma {:induction false} NamedReferenceFits(kind: Kind, text: string, name: string)
    requires Prefix(kind) <= text
    requires var rest := text[|Prefix(kind)|..]; rest != "" && rest[0] == ':' && Name(rest[1..]) == Some(name)
    ensures Fits(Reference(kind, Some(name)), text)
  {
    var prefix: string := Prefix(kind);
    var rest: string := text[|prefix|..];
    NamedFits(kind, rest, name);
    OpenerFirst(kind, text);
    PrefixThenPrefix(prefix, ":" + name + "}", text);
    Joined(prefix, ":", name, "}");
    NamedSource(kind, name);
  }

  lemma {:induction false} BareReferenceFits(kind: Kind, text: string)
    requires Prefix(kind) + "}" <= text
    ensures Fits(Reference(kind, None), text)
  {
    assert Prefix(kind) <= text;
    OpenerFirst(kind, text);
  }

  lemma {:induction false} TriedFits(kind: Kind, text: string)
    ensures Try(kind, text).Some? ==> Fits(Try(kind, text).value, text)
  {
    var prefix: string := Prefix(kind);
    if prefix <= text && After(kind, text[|prefix|..]).Some? {
      var rest: string := text[|prefix|..];
      OpenerFirst(kind, text);
      match After(kind, rest).value
      case Reference(_, Some(name)) => NamedReferenceFits(kind, text, name);
      case Reference(_, None) =>
        assert text[..|prefix| + 1] == prefix + "}";
        BareReferenceFits(kind, text);
      case Malformed(_, _) =>
    }
  }

  lemma {:induction false} RecognizedFits(text: string)
    ensures Recognize(text).Some? ==> Fits(Recognize(text).value, text)
  {
    TriedFits(Port, text);
    TriedFits(Host, text);
    TriedFits(StateDir, text);
    TriedFits(Secret, text);
  }

  // ---- Which texts are references ----

  /** Every kind but the secret may stand alone, every kind but the state directory
      may carry a name, and a name is not empty and has no braces. */
  predicate WellNamed(kind: Kind, name: Option<string>) {
    match name
    case None => kind != Secret
    case Some(n) => kind != StateDir && n != "" && '{' !in n && '}' !in n
  }

  ghost predicate BeginsReference(text: string, kind: Kind, name: Option<string>) {
    WellNamed(kind, name) && Source(Reference(kind, name)) <= text
  }

  /** No kind's prefix begins another's. */
  lemma {:induction false} PrefixesDiffer(text: string, a: Kind, b: Kind)
    requires Prefix(a) <= text && Prefix(b) <= text
    ensures a == b
  {
    assert text[2] == Prefix(a)[2] == Prefix(b)[2] && text[3] == Prefix(a)[3] == Prefix(b)[3];
  }

  lemma {:induction false} RecognizedByKind(text: string, kind: Kind)
    requires Prefix(kind) <= text
    ensures Recognize(text) == After(kind, text[|Prefix(kind)|..])
  {
    forall other | Prefix(other) <= text ensures other == kind { PrefixesDiffer(text, other, kind); }
    assert forall other :: other != kind ==> Try(other, text) == None;
  }

  lemma {:induction false} FoundFirst(s: string, c: char, i: nat)
    requires i < |s| && s[i] == c && c !in s[..i]
    ensures Find(s, c) == Some(i)
  {
    assert Find(s, c).Some?;
  }

  lemma {:induction false} BehindName(kind: Kind, rest: string, name: string)
    requires WellNamed(kind, Some(name))
    ensures ":" + name + "}" <= rest <==> rest != "" && rest[0] == ':' && Name(rest[1..]) == Some(name)
  {
    if ":" + name + "}" <= rest {
      var payload := rest[1..];
      assert rest[..|name| + 2] == ":" + name + "}";
      assert payload[..|name|] == name && payload[|name|] == '}' by {
        assert payload[..|name|] == rest[..|name| + 2][1..|name| + 1];
        assert rest[..|name| + 2][|name| + 1] == '}';
      }
      FoundFirst(payload, '}', |name|);
    }
    if rest != "" && rest[0] == ':' && Name(rest[1..]) == Some(name) { NamedFits(kind, rest, name); }
  }

  /** A text begins a reference exactly when it starts with that reference, well named. */
  lemma {:induction false} RecognizesReferences(text: string, kind: Kind, name: Option<string>)
    ensures Recognize(text) == Some(Reference(kind, name)) <==> BeginsReference(text, kind, name)
  {
    if Prefix(kind) <= text {
      RecognizedByKind(text, kind);
      var n := |Prefix(kind)|;
      var rest := text[n..];
      match name
      case None =>
        assert rest != "" && rest[0] == '}' <==> Prefix(kind) + "}" <= text;
      case Some(id) =>
        if WellNamed(kind, name) { BehindName(kind, rest, id); }
        Joined(Prefix(kind), ":", id, "}");
        BehindPrefix(Prefix(kind), ":" + id + "}", text);
    } else {
      RecognizedKind(text);
      assert Prefix(kind) <= Source(Reference(kind, name));
    }
  }

  lemma {:induction false} BehindPrefix(a: string, b: string, text: string)
    requires a <= text
    ensures a + b <= text <==> b <= text[|a|..]
  {
    if a + b <= text { assert text[..|a + b|][|a|..] == b; }
    if b <= text[|a|..] { PrefixThenPrefix(a, b, text); }
  }

  lemma {:induction false} RecognizedKind(text: string)
    ensures Recognize(text).Some? ==> !Recognize(text).value.Literal? && Prefix(Recognize(text).value.kind) <= text
  {
  }

  /** It begins a malformed one exactly when it is a bare prefix cut off, or a
      prefix and a colon without a name behind it; and nothing otherwise. */
  lemma {:induction false} RecognizesMalformed(text: string, kind: Kind, empty: bool)
    ensures Recognize(text) == Some(Malformed(kind, empty)) <==>
      || (text == Prefix(kind) && kind != Secret && !empty)
      || (Prefix(kind) + ":" <= text && kind != StateDir && (empty <==> Prefix(kind) + ":}" <= text)
          && forall id :: !BeginsReference(text, kind, Some(id)))
  {
    RecognizedKind(text);
    if Prefix(kind) <= text {
      RecognizedByKind(text, kind);
      var rest := text[|Prefix(kind)|..];
      BehindPrefix(Prefix(kind), ":", text);
      BehindPrefix(Prefix(kind), ":}", text);
      if rest != "" && rest[0] == ':' {
        forall id
          ensures BeginsReference(text, kind, Some(id)) <==> Recognize(text) == Some(Reference(kind, Some(id)))
        {
          RecognizesReferences(text, kind, Some(id));
        }
        if ":}" <= rest { assert rest[1..][0] == '}'; }
      }
    }
  }

  lemma {:induction false} FittingStands(value: string, m: seq<Option<Token>>, at: nat, t: Token)
    requires at < |value| == |m| && m[at] == Some(t) && Fits(t, value[at..])
    ensures OpensAt(value, at) && !t.Literal? && at + 2 <= at + |Source(t)| <= |value|
    ensures Stands(value, m, at, at + |Source(t)|, t)
  {
    PrefixAt(value, at, Source(t));
    assert value[at..][0] == value[at] && value[at..][1] == value[at + 1];
  }

  /** Something begins only at an opener, and its text is there. */
  lemma {:induction false} MeaningAt(value: string, at: nat)
    requires at < |value| && Meanings(value)[at].Some?
    ensures var t := Meanings(value)[at].value;
      && OpensAt(value, at) && !t.Literal? && at + 2 <= at + |Source(t)| <= |value|
      && Stands(value, Meanings(value), at, at + |Source(t)|, t)
  {
    var m: seq<Option<Token>> := Meanings(value);
    RecognizedFits(value[at..]);
    FittingStands(value, m, at, m[at].value);
  }

  // ---- Lossless ----

  lemma {:induction false} StandingSource(value: string, m: seq<Option<Token>>, at: nat, end: nat, t: Token)
    requires Stands(value, m, at, end, t)
    ensures Source(t) == value[at..end] && value[..end] == value[..at] + value[at..end]
  {
  }

  lemma {:induction false} LosslessUpTo(
      value: string, m: seq<Option<Token>>, tokens: seq<Token>, offsets: seq<nat>, end: nat, n: nat)
    requires Placed(value, m, tokens, offsets, end) && n <= |tokens|
    ensures offsets[n] <= |value| && SourceUpTo(tokens, n) == value[..offsets[n]]
    decreases n
  {
    if n > 0 {
      LosslessUpTo(value, m, tokens, offsets, end, n - 1);
      assert PlacedAt(value, m, tokens, offsets, n - 1);
      StandingSource(value, m, offsets[n - 1], offsets[n], tokens[n - 1]);
    }
  }

  /** The tokens put end to end are the text again. */
  lemma {:induction false} TokensAreLossless(value: string, tokens: seq<Token>, offsets: seq<nat>)
    requires IsTokenization(value, tokens, offsets)
    ensures SourceUpTo(tokens, |tokens|) == value
  {
    LosslessUpTo(value, Meanings(value), tokens, offsets, |value|, |tokens|);
    assert value[..|value|] == value;
  }

  // ---- Only one ----

  /** What follows a literal begins something, or nothing follows. */
  lemma {:induction false} LiteralEnds(
      value: string, m: seq<Option<Token>>, tokens: seq<Token>, offsets: seq<nat>, k: nat)
    requires Placed(value, m, tokens, offsets, |value|) && k < |tokens| && tokens[k].Literal?
    ensures offsets[k] < offsets[k + 1] <= |value| && NothingBegins(m, offsets[k], offsets[k + 1])
    ensures offsets[k + 1] == |value| || (offsets[k + 1] < |m| && m[offsets[k + 1]].Some?)
    ensures tokens[k].text == value[offsets[k]..offsets[k + 1]]
  {
    assert PlacedAt(value, m, tokens, offsets, k);
    if k + 1 < |tokens| { assert PlacedAt(value, m, tokens, offsets, k + 1); }
  }

  lemma {:induction false} SameToken(
      value: string, m: seq<Option<Token>>, a: seq<Token>, oa: seq<nat>, b: seq<Token>, ob: seq<nat>, k: nat)
    requires Placed(value, m, a, oa, |value|) && Placed(value, m, b, ob, |value|)
    requires k < |a| && k < |b| && oa[k] == ob[k]
    ensures a[k] == b[k] && oa[k + 1] == ob[k + 1]
  {
    assert PlacedAt(value, m, a, oa, k) && PlacedAt(value, m, b, ob, k);
    if a[k].Literal? { LiteralEnds(value, m, a, oa, k); }
    if b[k].Literal? { LiteralEnds(value, m, b, ob, k); }
  }

  lemma {:induction false} SameTokens(
      value: string, m: seq<Option<Token>>, a: seq<Token>, oa: seq<nat>, b: seq<Token>, ob: seq<nat>, n: nat)
    requires Placed(value, m, a, oa, |value|) && Placed(value, m, b, ob, |value|) && n <= |a| && n <= |b|
    ensures oa[n] == ob[n] && a[..n] == b[..n]
    decreases n
  {
    if n > 0 {
      SameTokens(value, m, a, oa, b, ob, n - 1);
      SameToken(value, m, a, oa, b, ob, n - 1);
      assert a[..n] == a[..n - 1] + [a[n - 1]] && b[..n] == b[..n - 1] + [b[n - 1]];
    }
  }

  lemma {:induction false} BeforeEnd(
      value: string, m: seq<Option<Token>>, tokens: seq<Token>, offsets: seq<nat>, k: nat)
    requires Placed(value, m, tokens, offsets, |value|) && k <= |tokens|
    ensures offsets[k] == |value| <==> k == |tokens|
  {
    if k < |tokens| { assert PlacedAt(value, m, tokens, offsets, k); }
  }

  /** The text alone decides its tokens. */
  lemma {:induction false} TokenizationUnique(value: string, a: seq<Token>, oa: seq<nat>, b: seq<Token>, ob: seq<nat>)
    requires IsTokenization(value, a, oa) && IsTokenization(value, b, ob)
    ensures a == b
  {
    var m: seq<Option<Token>> := Meanings(value);
    var n := if |a| < |b| then |a| else |b|;
    SameTokens(value, m, a, oa, b, ob, n);
    BeforeEnd(value, m, a, oa, n);
    BeforeEnd(value, m, b, ob, n);
    assert a[..|a|] == a && b[..|b|] == b;
  }

  // ---- Every opener is decided by the text at its own position ----

  lemma {:induction false} NoOpenerInText(value: string, at: nat, text: string, i: nat)
    requires at + |text| <= |value| && value[at..at + |text|] == text && at < i < at + |text|
    requires text[|text| - 1] != '$' && forall j :: 2 <= j < |text| ==> text[j] != '{'
    ensures !OpensAt(value, i)
  {
    var there: string := value[at..at + |text|];
    assert value[i] == there[i - at];
    assert i + 1 < at + |text| ==> value[i + 1] == there[i + 1 - at];
  }

  lemma {:induction false} FittingHasNoOpener(value: string, m: seq<Option<Token>>, at: nat, end: nat, t: Token, i: nat)
    requires Stands(value, m, at, end, t) && Fits(t, value[at..]) && at < i < end
    ensures !OpensAt(value, i)
  {
    NoOpenerInText(value, at, Source(t), i);
  }

  /** Inside a recognized token no second opener begins. */
  lemma {:induction false} NoOpenerInside(value: string, m: seq<Option<Token>>, at: nat, end: nat, t: Token, i: nat)
    requires m == Meanings(value) && Stands(value, m, at, end, t) && !t.Literal? && at < i < end
    ensures !OpensAt(value, i)
  {
    assert Recognize(value[at..]) == Some(t);
    RecognizedFits(value[at..]);
    FittingHasNoOpener(value, m, at, end, t, i);
  }

  lemma {:induction false} TokenOver(
      value: string, m: seq<Option<Token>>, tokens: seq<Token>, offsets: seq<nat>, i: nat, n: nat)
      returns (k: nat)
    requires Placed(value, m, tokens, offsets, |value|) && n <= |tokens| && i < offsets[n]
    ensures k < n && offsets[k] <= i < offsets[k + 1]
    decreases n
  {
    if offsets[n - 1] <= i { k := n - 1; } else { k := TokenOver(value, m, tokens, offsets, i, n - 1); }
  }

  /** At every `${` the token is what the grammar says of the text from there
      on, or the opener lies inside a literal because it begins nothing: no
      malformed or unknown opener hides a reference nested behind it. */
  lemma {:induction false} OpenerDecidedByPosition(
      value: string, tokens: seq<Token>, offsets: seq<nat>, i: nat)
      returns (k: nat)
    requires IsTokenization(value, tokens, offsets) && OpensAt(value, i)
    ensures k < |tokens| && i < |value| && |offsets| == |tokens| + 1 && offsets[k] <= i < offsets[k + 1]
    ensures match Recognize(value[i..])
      case Some(t) => offsets[k] == i && tokens[k] == t
      case None => tokens[k].Literal?
  {
    var m: seq<Option<Token>> := Meanings(value);
    k := TokenOver(value, m, tokens, offsets, i, |tokens|);
    assert PlacedAt(value, m, tokens, offsets, k) && m[i] == Recognize(value[i..]);
    if !tokens[k].Literal? && i > offsets[k] { NoOpenerInside(value, m, offsets[k], offsets[k + 1], tokens[k], i); }
  }

  // ---- The tokenizing loop ----

  lemma {:induction false} BeginsAtOpener(value: string, i: nat)
    requires i < |value| && !OpensAt(value, i)
    ensures Meanings(value)[i] == None
  {
    if Meanings(value)[i].Some? { MeaningAt(value, i); }
  }

  /** The next opener, if there is one; nothing begins before it. */
  method FindOpener(value: string, from: nat, ghost m: seq<Option<Token>>) returns (r: Option<nat>)
    requires from <= |value| && m == Meanings(value)
    ensures r.Some? ==> from <= r.value && OpensAt(value, r.value)
    ensures NothingBegins(m, from, if r.Some? then r.value else |value|)
  {
    for i := from to |value|
      invariant NothingBegins(m, from, i)
    {
      if OpensAt(value, i) { return Some(i); }
      BeginsAtOpener(value, i);
    }
    return None;
  }

  ghost predicate EndsInLiteral(tokens: seq<Token>) {
    tokens != [] && tokens[|tokens| - 1].Literal?
  }

  lemma {:induction false} PlaceNext(
      value: string, m: seq<Option<Token>>, tokens: seq<Token>, offsets: seq<nat>, at: nat, end: nat, t: Token)
    requires Placed(value, m, tokens, offsets, at) && Stands(value, m, at, end, t)
    requires !(EndsInLiteral(tokens) && t.Literal?)
    ensures Placed(value, m, tokens + [t], offsets + [end], end)
  {
    var more, places := tokens + [t], offsets + [end];
    forall k | 0 <= k < |more| ensures PlacedAt(value, m, more, places, k) {
      if k < |tokens| { assert PlacedAt(value, m, tokens, offsets, k); }
    }
  }

  /** The pending literal, if there is any text in it, closes here. */
  method CloseLiteral(
      value: string, ghost m: seq<Option<Token>>, tokens: seq<Token>, literal: nat, end: nat,
      ghost offsets: seq<nat>)
    returns (more: seq<Token>, ghost places: seq<nat>)
    requires Placed(value, m, tokens, offsets, literal) && !EndsInLiteral(tokens) && literal <= end <= |value| == |m|
    requires NothingBegins(m, literal, end)
    ensures Placed(value, m, more, places, end)
  {
    if literal == end { return tokens, offsets; }
    PlaceNext(value, m, tokens, offsets, literal, end, Literal(value[literal..end]));
    return tokens + [Literal(value[literal..end])], offsets + [end];
  }

  /** A recognized token closes the pending literal and follows it. */
  method TakeToken(
      value: string, ghost m: seq<Option<Token>>, tokens: seq<Token>, literal: nat, start: nat, end: nat,
      t: Token, ghost offsets: seq<nat>)
    returns (more: seq<Token>, ghost places: seq<nat>)
    requires Placed(value, m, tokens, offsets, literal) && !EndsInLiteral(tokens) && literal <= start
    requires NothingBegins(m, literal, start) && Stands(value, m, start, end, t) && !t.Literal?
    ensures Placed(value, m, more, places, end) && !EndsInLiteral(more)
  {
    more, places := CloseLiteral(value, m, tokens, literal, start, offsets);
    PlaceNext(value, m, more, places, start, end, t);
    more, places := more + [t], places + [end];
  }

  lemma {:induction false} SkippedOpener(value: string, m: seq<Option<Token>>, start: nat)
    requires m == Meanings(value) && OpensAt(value, start) && Recognize(value[start..]).None?
    ensures NothingBegins(m, start, start + 2)
  {
    BeginsAtOpener(value, start + 1);
    assert m[start] == Recognize(value[start..]);
  }

  /** What begins at an opener, and where it ends. */
  method RecognizeHere(value: string, ghost m: seq<Option<Token>>, start: nat) returns (t: Option<Token>, end: nat)
    requires m == Meanings(value) && OpensAt(value, start)
    ensures t.Some? ==> !t.value.Literal? && Stands(value, m, start, end, t.value)
    ensures t.None? ==> end == start + 2 <= |value| && NothingBegins(m, start, end)
  {
    t := Recognize(value[start..]);
    assert m[start] == t;
    match t
    case Some(token) =>
      MeaningAt(value, start);
      end := start + |Source(token)|;
    case None =>
      SkippedOpener(value, m, start);
      end := start + 2;
  }

  method Tokenize(value: string) returns (tokens: seq<Token>, ghost offsets: seq<nat>)
    ensures IsTokenization(value, tokens, offsets)
  {
    ghost var m: seq<Option<Token>> := Meanings(value);
    tokens, offsets := [], [0];
    var cursor: nat, literal: nat := 0, 0;
    var found := FindOpener(value, 0, m);
    while found.Some?
      invariant literal <= cursor <= |value|
      invariant Placed(value, m, tokens, offsets, literal) && !EndsInLiteral(tokens)
      invariant found.Some? ==> cursor <= found.value && OpensAt(value, found.value)
      invariant NothingBegins(m, literal, if found.Some? then found.value else |value|)
      decreases |value| - cursor, if found.Some? then 1 else 0
    {
      var start := found.value;
      var t, end := RecognizeHere(value, m, start);
      if t.Some? {
        tokens, offsets := TakeToken(value, m, tokens, literal, start, end, t.value, offsets);
        literal := end;
      }
      cursor := end;
      found := FindOpener(value, cursor, m);
    }
    tokens, offsets := CloseLiteral(value, m, tokens, literal, |value|, offsets);
  }

  // ---- Parsing ----

  datatype EndpointSelector = Primary | Own(endpoint: string) | OfService(service: string)

  datatype Piece =
    | LiteralPiece(text: string)
    | PortPiece(of: EndpointSelector)
    | HostPiece(of: EndpointSelector)
    | StateDirPiece
    | SecretPiece(id: string)

  /** What the owner of a text may refer to. */
  datatype Scope = Scope(
    hasPrimary: bool, ownEndpoints: set<string>, services: set<string>, secrets: set<string>, allowSecret: bool)

  datatype Rejection =
    | NoEndpoint
    | ForeignEndpoint(name: string)
    | SecretNotAllowed
    | UndeclaredSecret(id: string)
    | BadPlaceholder(kind: Kind)

  /** An own endpoint hides a service of the same name. */
  function Endpoint(scope: Scope, name: Option<string>): Result<EndpointSelector, Rejection> {
    match name
    case None => if scope.hasPrimary then Ok(Primary) else Err(NoEndpoint)
    case Some(n) =>
      if n in scope.ownEndpoints then Ok(Own(n))
      else if n in scope.services then Ok(OfService(n))
      else Err(ForeignEndpoint(n))
  }

  function PieceOf(scope: Scope, t: Token): Result<Piece, Rejection> {
    match t
    case Literal(text) => Ok(LiteralPiece(text))
    case Reference(Port, name) =>
      (match Endpoint(scope, name) case Ok(of) => Ok(PortPiece(of)) case Err(e) => Err(e))
    case Reference(Host, name) =>
      (match Endpoint(scope, name) case Ok(of) => Ok(HostPiece(of)) case Err(e) => Err(e))
    case Reference(StateDir, _) => Ok(StateDirPiece)
    case Reference(Secret, name) =>
      if !scope.allowSecret then Err(SecretNotAllowed)
      else if name.Some? && name.value in scope.secrets then Ok(SecretPiece(name.value))
      else Err(UndeclaredSecret(if name.Some? then name.value else ""))
    case Malformed(kind, _) => Err(BadPlaceholder(kind))
  }

  /** The endpoint a name stands for; an own endpoint hides a service of its name. */
  predicate Points(scope: Scope, name: Option<string>, of: EndpointSelector) {
    match of
    case Primary => name == None && scope.hasPrimary
    case Own(e) => name == Some(e) && e in scope.ownEndpoints
    case OfService(s) => name == Some(s) && s !in scope.ownEndpoints && s in scope.services
  }

  /** The piece says what the token says. */
  predicate Denotes(scope: Scope, t: Token, piece: Piece) {
    match piece
    case LiteralPiece(text) => t == Literal(text)
    case PortPiece(of) => t.Reference? && t.kind == Port && Points(scope, t.name, of)
    case HostPiece(of) => t.Reference? && t.kind == Host && Points(scope, t.name, of)
    case StateDirPiece => t.Reference? && t.kind == StateDir
    case SecretPiece(id) => t == Reference(Secret, Some(id)) && scope.allowSecret && id in scope.secrets
  }

  /** Why a token is refused. */
  predicate Refuses(scope: Scope, t: Token, e: Rejection) {
    match e
    case NoEndpoint => (t == Reference(Port, None) || t == Reference(Host, None)) && !scope.hasPrimary
    case ForeignEndpoint(n) =>
      (t == Reference(Port, Some(n)) || t == Reference(Host, Some(n))) && n !in scope.ownEndpoints + scope.services
    case SecretNotAllowed => t.Reference? && t.kind == Secret && !scope.allowSecret
    case UndeclaredSecret(id) =>
      && t.Reference? && t.kind == Secret && scope.allowSecret
      && ((t.name == Some(id) && id !in scope.secrets) || (t.name == None && id == ""))
    case BadPlaceholder(kind) => t.Malformed? && t.kind == kind
  }

  lemma {:induction false} PieceMeans(scope: Scope, t: Token)
    ensures var r := PieceOf(scope, t);
      if r.Ok? then Denotes(scope, t, r.value) && forall e :: !Refuses(scope, t, e) else Refuses(scope, t, r.error)
  {
  }

  ghost predicate FirstRefused(scope: Scope, tokens: seq<Token>, k: nat, e: Rejection) {
    && k < |tokens| && PieceOf(scope, tokens[k]) == Err(e)
    && forall j :: 0 <= j < k ==> PieceOf(scope, tokens[j]).Ok?
  }

  /** A text parses piece by piece, or is refused at its first bad token. */
  method Parse(
      value: string, scope: Scope)
      returns (r: Result<seq<Piece>, Rejection>, ghost tokens: seq<Token>, ghost offsets: seq<nat>)
    ensures IsTokenization(value, tokens, offsets)
    ensures r.Ok? <==> forall t <- tokens :: PieceOf(scope, t).Ok?
    ensures r.Ok? ==> |r.value| == |tokens| && forall k :: 0 <= k < |tokens| ==>
      PieceOf(scope, tokens[k]) == Ok(r.value[k])
    ensures r.Ok? ==> forall k :: 0 <= k < |tokens| ==> Denotes(scope, tokens[k], r.value[k])
    ensures r.Err? ==> exists k :: FirstRefused(scope, tokens, k, r.error)
    ensures r.Err? ==> exists t <- tokens :: Refuses(scope, t, r.error)
  {
    var found;
    found, offsets := Tokenize(value);
    tokens := found;
    var pieces: seq<Piece> := [];
    for k := 0 to |found|
      invariant |pieces| == k && forall j :: 0 <= j < k ==> PieceOf(scope, found[j]) == Ok(pieces[j])
      invariant forall j :: 0 <= j < k ==> Denotes(scope, found[j], pieces[j])
    {
      PieceMeans(scope, found[k]);
      var piece := PieceOf(scope, found[k]);
      if piece.Err? {
        assert found[k] in tokens && FirstRefused(scope, tokens, k, piece.error);
        return Err(piece.error), tokens, offsets;
      }
      pieces := pieces + [piece.value];
    }
    return Ok(pieces), tokens, offsets;
  }

  /** A text that parses holds, at no position, a malformed placeholder, a
      secret where none is allowed, or an undeclared one: nothing in front of
      it can hide it from the check. */
  lemma {:induction false} ParsedHidesNothing(
      value: string, scope: Scope, tokens: seq<Token>, offsets: seq<nat>, i: nat)
    requires IsTokenization(value, tokens, offsets) && forall t <- tokens :: PieceOf(scope, t).Ok?
    requires OpensAt(value, i) && Recognize(value[i..]).Some?
    ensures var t := Recognize(value[i..]).value;
      && !t.Malformed? && PieceOf(scope, t).Ok?
      && (t.Reference? && t.kind == Secret ==> scope.allowSecret && t.name.Some? && t.name.value in scope.secrets)
  {
    var k := OpenerDecidedByPosition(value, tokens, offsets, i);
    assert tokens[k] in tokens;
  }
}
