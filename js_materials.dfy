/**
 * Client-side rendering helpers of static/js/materials.js: the Korean label of a difficulty
 * and the small Markdown renderer, a chain of five global regular-expression replacements.
 *
 * Each replacement is modelled as JavaScript runs a global `replace`: scan from the left; where
 * the pattern matches, emit the replacement and resume after the match; elsewhere copy one
 * character and move on.
 */
module ClientMaterials {
  import opened Base

  /** `getDifficultyText`: the three known levels get their label, anything else is shown as is. */
  function DifficultyText(difficulty: string): (shown: string)
    ensures difficulty == "beginner" ==> shown == "초급"
    ensures difficulty == "intermediate" ==> shown == "중급"
    ensures difficulty == "advanced" ==> shown == "고급"
    ensures difficulty !in {"beginner", "intermediate", "advanced"} ==> shown == difficulty
  {
    match difficulty
    case "beginner" => "초급"
    case "intermediate" => "중급"
    case "advanced" => "고급"
    case _ => difficulty
  }

  /** The five patterns of `renderMarkdown`, in the order they are applied. */
  datatype Rule =
    | FencedBlock   // /```(\w+)?\n([\s\S]*?)```/g  ->  <pre><code>$2</code></pre>
    | InlineCode    // /`([^`]+)`/g                  ->  <code>$1</code>
    | Strong        // /\*\*([^*]+)\*\*/g            ->  <strong>$1</strong>
    | Emphasis      // /\*([^*]+)\*/g                ->  <em>$1</em>
    | LineBreak     // /\n/g                         ->  <br>

  /** The character every match of the rule starts with. */
  function Lead(rule: Rule): char {
    match rule
    case FencedBlock => '`'
    case InlineCode => '`'
    case Strong => '*'
    case Emphasis => '*'
    case LineBreak => '\n'
  }

  /** JavaScript's `\w`. */
  predicate WordChar(c: char) {
    'a' <= c <= 'z' || 'A' <= c <= 'Z' || '0' <= c <= '9' || c == '_'
  }

  /** The end of the run of word characters starting at `k`. */
  function WordEnd(s: string, k: nat): (r: nat)
    requires k <= |s|
    ensures k <= r <= |s|
    ensures forall j :: k <= j < r ==> WordChar(s[j])
    ensures r == |s| || !WordChar(s[r])
    decreases |s| - k
  {
    if k == |s| || !WordChar(s[k]) then k else WordEnd(s, k + 1)
  }

  /** The first position at or after `from` holding `c`. */
  function NextIndex(s: string, c: char, from: nat): (r: Option<nat>)
    requires from <= |s|
    ensures r.Some? ==> from <= r.value < |s| && s[r.value] == c
    ensures r.Some? ==> forall j :: from <= j < r.value ==> s[j] != c
    ensures r.None? ==> forall j :: from <= j < |s| ==> s[j] != c
    decreases |s| - from
  {
    if from == |s| then None
    else if s[from] == c then Some(from)
    else NextIndex(s, c, from + 1)
  }

  predicate FenceAt(s: string, j: int) {
    0 <= j && j + 3 <= |s| && s[j] == '`' && s[j + 1] == '`' && s[j + 2] == '`'
  }

  /** The first "```" at or after `from`: where the lazy `[\s\S]*?` stops. */
  function NextFence(s: string, from: nat): (r: Option<nat>)
    requires from <= |s|
    ensures r.Some? ==> from <= r.value && FenceAt(s, r.value)
    ensures r.Some? ==> forall j :: from <= j < r.value ==> !FenceAt(s, j)
    ensures r.None? ==> forall j :: from <= j ==> !FenceAt(s, j)
    decreases |s| - from
  {
    if from + 3 > |s| then None
    else if FenceAt(s, from) then Some(from)
    else NextFence(s, from + 1)
  }

  /** A match: where it ends, and the text that replaces it. */
  datatype Hit = Hit(end: nat, replacement: string)

  /** Whether the rule's pattern matches at position `i` of `s`, and with what. */
  function MatchAt(rule: Rule, s: string, i: nat): (r: Option<Hit>)
    requires i < |s|
    ensures r.Some? ==> i < r.value.end <= |s| && s[i] == Lead(rule)
  {
    match rule
    case FencedBlock =>
      if !FenceAt(s, i) then None
      else
        var k := WordEnd(s, i + 3);
        if k == |s| || s[k] != '\n' then None
        else (match NextFence(s, k + 1)
          case None => None
          case Some(c) => Some(Hit(c + 3, "<pre><code>" + s[k + 1..c] + "</code></pre>")))
    case InlineCode =>
      if s[i] != '`' then None
      else (match NextIndex(s, '`', i + 1)
        case None => None
        case Some(j) => if j == i + 1 then None else Some(Hit(j + 1, "<code>" + s[i + 1..j] + "</code>")))
    case Strong =>
      if i + 1 >= |s| || s[i] != '*' || s[i + 1] != '*' then None
      else (match NextIndex(s, '*', i + 2)
        case None => None
        case Some(j) =>
          if j == i + 2 || j + 1 >= |s| || s[j + 1] != '*' then None
          else Some(Hit(j + 2, "<strong>" + s[i + 2..j] + "</strong>")))
    case Emphasis =>
      if s[i] != '*' then None
      else (match NextIndex(s, '*', i + 1)
        case None => None
        case Some(j) => if j == i + 1 then None else Some(Hit(j + 1, "<em>" + s[i + 1..j] + "</em>")))
    case LineBreak =>
      if s[i] != '\n' then None else Some(Hit(i + 1, "<br>"))
  }

  /** The global replacement of `rule` over `s[i..]`. */
  function ReplaceFrom(rule: Rule, s: string, i: nat): string
    requires i <= |s|
    decreases |s| - i
  {
    if i == |s| then ""
    else match MatchAt(rule, s, i)
      case None => [s[i]] + ReplaceFrom(rule, s, i + 1)
      case Some(h) => h.replacement + ReplaceFrom(rule, s, h.end)
  }

  /** Where the pattern matches at no position, the replacement copies the text. */
  lemma {:induction false} UnmatchedCopied(rule: Rule, s: string, i: nat)
    requires i <= |s|
    ensures (forall j :: i <= j < |s| ==> MatchAt(rule, s, j).None?) ==> ReplaceFrom(rule, s, i) == s[i..]
    decreases |s| - i
  {
    if i < |s| {
      UnmatchedCopied(rule, s, i + 1);
      assert s[i..] == [s[i]] + s[i + 1..];
    }
  }

  /** `text.replace(pattern, replacement)` with a global pattern. */
  function ReplaceAll(rule: Rule, s: string): (r: string)
    ensures (forall j :: 0 <= j < |s| ==> MatchAt(rule, s, j).None?) ==> r == s
  {
    UnmatchedCopied(rule, s, 0);
    assert s[0..] == s;
    ReplaceFrom(rule, s, 0)
  }

  /** Where the pattern cannot even start, the replacement leaves the text as it is. */
  lemma NoMatchUnchanged(rule: Rule, s: string, i: nat)
    requires i <= |s|
    requires forall j :: i <= j < |s| ==> s[j] != Lead(rule)
    ensures ReplaceFrom(rule, s, i) == s[i..]
  {
    UnmatchedCopied(rule, s, i);
  }

  /** Replacing every '\n' by "<br>" leaves no '\n' behind. */
  lemma {:induction false} LineBreaksRemoved(s: string, i: nat)
    requires i <= |s|
    ensures forall k :: 0 <= k < |ReplaceFrom(LineBreak, s, i)| ==> ReplaceFrom(LineBreak, s, i)[k] != '\n'
    decreases |s| - i
  {
    if i < |s| {
      LineBreaksRemoved(s, i + 1);
      var rest := ReplaceFrom(LineBreak, s, i + 1);
      if s[i] == '\n' {
        assert ReplaceFrom(LineBreak, s, i) == "<br>" + rest;
      } else {
        assert ReplaceFrom(LineBreak, s, i) == [s[i]] + rest;
      }
    }
  }

  /** The newline rule looks at one character at a time, so replacing from `i` is replacing in `s[i..]`. */
  lemma {:induction false} LineBreakFrom(s: string, i: nat)
    requires i <= |s|
    ensures ReplaceFrom(LineBreak, s, i) == ReplaceAll(LineBreak, s[i..])
    decreases |s| - i
  {
    if i < |s| {
      var t := s[i..];
      LineBreakFrom(s, i + 1);
      LineBreakFrom(t, 1);
      assert t[1..] == s[i + 1..];
      assert t[0] == s[i];
    }
  }

  /** The newline rule distributes over concatenation. */
  lemma {:induction false} LineBreakConcat(a: string, b: string)
    ensures ReplaceAll(LineBreak, a + b) == ReplaceAll(LineBreak, a) + ReplaceAll(LineBreak, b)
  {
    if a == [] {
      assert a + b == b;
    } else {
      var ab := a + b;
      assert ab[0] == a[0];
      LineBreakFrom(ab, 1);
      LineBreakFrom(a, 1);
      assert ab[1..] == a[1..] + b;
      LineBreakConcat(a[1..], b);
    }
  }

  /** Every '\n' becomes "<br>", and the text on either side is replaced independently. */
  lemma NewlineBecomesBreak(a: string, b: string)
    ensures ReplaceAll(LineBreak, a + "\n" + b) == ReplaceAll(LineBreak, a) + "<br>" + ReplaceAll(LineBreak, b)
  {
    LineBreakConcat(a + "\n", b);
    LineBreakConcat(a, "\n");
    assert ReplaceAll(LineBreak, "\n") == "<br>" + ReplaceFrom(LineBreak, "\n", 1);
  }

  /**
   * `renderMarkdown(text)`: the five replacements in order; no newline survives. What the
   * rendering means is proved beside it: `NewlineBecomesBreak` (each '\n' becomes "<br>"),
   * `InlineCodeThroughChain` (plain text in backticks becomes `<code>` through all five rules)
   * and `PlainTextUnchanged` (text without '`', '*' or '\n' is left as it is).
   */
  function RenderMarkdown(text: string): (html: string)
    ensures forall k :: 0 <= k < |html| ==> html[k] != '\n'
  {
    var t := ReplaceAll(Emphasis, ReplaceAll(Strong, ReplaceAll(InlineCode, ReplaceAll(FencedBlock, text))));
    LineBreaksRemoved(t, 0);
    ReplaceAll(LineBreak, t)
  }

  /** Text in single backticks becomes a `<code>` element. */
  lemma {:induction false} InlineCodeRendered(x: string)
    requires x != []
    requires forall k :: 0 <= k < |x| ==> x[k] != '`'
    ensures ReplaceAll(InlineCode, "`" + x + "`") == "<code>" + x + "</code>"
  {
    var s := "`" + x + "`";
    assert s[1..|x| + 1] == x;
    assert forall k :: 1 <= k < |x| + 1 ==> s[k] == x[k - 1];
    assert |s| == |x| + 2 && s[|x| + 1] == '`';
    var r := NextIndex(s, '`', 1);
    assert r.Some? && r.value <= |x| + 1;
    assert r == Some(|x| + 1);
    assert MatchAt(InlineCode, s, 0) == Some(Hit(|x| + 2, "<code>" + x + "</code>"));
    assert ReplaceFrom(InlineCode, s, |x| + 2) == "";
  }

  /** A whole fenced block becomes `<pre><code>` around its body; the language tag is dropped. */
  lemma {:induction false} FencedBlockDropsLanguage(lang: string, body: string)
    requires forall k :: 0 <= k < |lang| ==> WordChar(lang[k])
    requires forall k :: 0 <= k < |body| ==> body[k] != '`'
    ensures ReplaceAll(FencedBlock, "```" + lang + "\n" + body + "```") == "<pre><code>" + body + "</code></pre>"
  {
    var s := "```" + lang + "\n" + body + "```";
    var k := 3 + |lang|;
    assert forall j :: 3 <= j < k ==> s[j] == lang[j - 3];
    assert s[k] == '\n';
    assert WordEnd(s, 3) == k;
    assert forall j :: k + 1 <= j < k + 1 + |body| ==> s[j] == body[j - k - 1];
    assert FenceAt(s, k + 1 + |body|);
    assert forall j :: k + 1 <= j < k + 1 + |body| ==> !FenceAt(s, j);
    assert NextFence(s, k + 1) == Some(k + 1 + |body|);
    assert s[k + 1..k + 1 + |body|] == body;
    assert MatchAt(FencedBlock, s, 0) == Some(Hit(|s|, "<pre><code>" + body + "</code></pre>"));
    assert ReplaceFrom(FencedBlock, s, |s|) == "";
    assert ReplaceFrom(FencedBlock, s, 0) == "<pre><code>" + body + "</code></pre>" + "";
  }

  /** Text with no backtick, asterisk or newline is rendered unchanged. */
  lemma PlainTextUnchanged(text: string)
    requires forall k :: 0 <= k < |text| ==> text[k] !in {'`', '*', '\n'}
    ensures RenderMarkdown(text) == text
  {
    NoMatchUnchanged(FencedBlock, text, 0);
    NoMatchUnchanged(InlineCode, text, 0);
    NoMatchUnchanged(Strong, text, 0);
    NoMatchUnchanged(Emphasis, text, 0);
    NoMatchUnchanged(LineBreak, text, 0);
    assert text[0..] == text;
  }

  /** Through the whole chain of `renderMarkdown`, plain text in single backticks becomes a `<code>` element. */
  lemma InlineCodeThroughChain(x: string)
    requires x != []
    requires forall k :: 0 <= k < |x| ==> x[k] !in {'`', '*', '\n'}
    ensures RenderMarkdown("`" + x + "`") == "<code>" + x + "</code>"
  {
    var s := "`" + x + "`";
    assert forall k :: 1 <= k <= |x| ==> s[k] == x[k - 1];
    assert forall j :: 0 <= j < |s| ==> !FenceAt(s, j);
    assert forall j :: 0 <= j < |s| ==> MatchAt(FencedBlock, s, j).None?;
    assert ReplaceAll(FencedBlock, s) == s;
    InlineCodeRendered(x);
    var t := "<code>" + x + "</code>";
    assert forall k :: 0 <= k < |t| ==> t[k] !in {'`', '*', '\n'} by {
      forall k | 0 <= k < |t| ensures t[k] !in {'`', '*', '\n'} {
        if 6 <= k < 6 + |x| {
          assert t[k] == x[k - 6];
        }
      }
    }
    NoMatchUnchanged(Strong, t, 0);
    NoMatchUnchanged(Emphasis, t, 0);
    NoMatchUnchanged(LineBreak, t, 0);
    assert t[0..] == t;
  }
}
