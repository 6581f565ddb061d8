/**
  * `extract_json_from_response` and `_attempt_manual_json_extraction`: pulling one
  * JSON value out of free model text. Fence selection and the three regular-expression
  * clean-ups are functions; the control-character retry and the manual extraction are
  * methods whose loops are proved against those functions. `json.loads` is the
  * parameter `parse`.
  */
module JsonHelper {
  import opened Text
  import opened JsonValue

  /** What `json.loads` does with a string: a value, a `JSONDecodeError` (its text,
      line and column), or any other exception (a `RecursionError`, say). */
  datatype ParseOutcome =
    | Parsed(value: Json)
    | DecodeError(message: string, line: nat, column: nat)
    | Crash(message: string)

  const JsonFence: string := "```json"
  const Fence: string := "```"

  /* ---------------------------------------------------------------- fences */

  /** `s[start:end]` for `0 <= start <= |s|`, reading a negative `end` from the back. */
  function Slice(s: string, start: nat, end: int): (r: string)
    requires start <= |s|
    ensures start <= end <= |s| ==> r == s[start..end]
    ensures end < 0 && start <= |s| + end ==> r == s[start..|s| + end]
  {
    var stop := if end < 0 then (if |s| + end < 0 then 0 else |s| + end)
                else (if end > |s| then |s| else end);
    if start >= stop then [] else s[start..stop]
  }

  /** The text handed to the parser before clean-up: the body of the first
      "```json" fence, else of the first bare fence, else the whole text; trimmed. */
  function FencedCandidate(text: string): string
  {
    if Contains(text, JsonFence) then
      var start := FindFrom(text, JsonFence, 0) + |JsonFence|;
      Strip(Slice(text, start, FindFrom(text, Fence, start)))
    else if Contains(text, Fence) then
      var start := FindFrom(text, Fence, 0) + |Fence|;
      Strip(Slice(text, start, FindFrom(text, Fence, start)))
    else Strip(text)
  }

  lemma JsonFenceIsFence(s: string, i: int)
    ensures OccursAt(s, JsonFence, i) ==> OccursAt(s, Fence, i)
  {
    if OccursAt(s, JsonFence, i) {
      assert s[i..i + 3] == s[i..i + 7][..3];
    }
  }

  /** A text without any fence is parsed whole, trimmed. */
  lemma UnfencedCandidate(text: string)
    requires !Contains(text, Fence)
    ensures FencedCandidate(text) == Strip(text)
  {
    forall i | 0 <= i <= |text| ensures !OccursAt(text, JsonFence, i) {
      JsonFenceIsFence(text, i);
    }
  }

  /** `find` of a backquote-led `t` from `from` lands on `k` when no backquote lies between. */
  lemma FindOverPlain(s: string, t: string, from: nat, k: nat)
    requires |t| > 0 && t[0] == '`' && from <= k && OccursAt(s, t, k)
    requires forall j | from <= j < k :: s[j] != '`'
    ensures FindFrom(s, t, from) == k
  {
    forall j | from <= j < k ensures !OccursAt(s, t, j) {
      if j + |t| <= |s| {
        assert s[j..j + |t|][0] == s[j];
      }
    }
    FindFromIs(s, t, from, k);
  }

  /** Past a prefix `head`, a backquote-led `t` is first found right after a backquote-free `mid`. */
  lemma FindPast(head: string, mid: string, t: string, rest: string)
    requires '`' !in mid && |t| > 0 && t[0] == '`'
    ensures FindFrom(head + mid + t + rest, t, |head|) == |head| + |mid|
  {
    var s := head + mid + t + rest;
    var k := |head| + |mid|;
    assert s[k..k + |t|] == t;
    assert forall j | |head| <= j < k :: s[j] == mid[j - |head|];
    FindOverPlain(s, t, |head|, k);
  }

  /** Past a prefix `head`, a backquote-free remainder holds no backquote-led `t`. */
  lemma NothingPast(head: string, mid: string, t: string)
    requires '`' !in mid && |t| > 0 && t[0] == '`'
    ensures FindFrom(head + mid, t, |head|) == -1
  {
  }

  /** `FencedCandidate` when the first "```json" is followed by a fence ending at `k`. */
  lemma JsonFenceAt(text: string, k: nat)
    requires Contains(text, JsonFence)
    requires FindFrom(text, JsonFence, 0) + |JsonFence| <= k <= |text|
    requires FindFrom(text, Fence, FindFrom(text, JsonFence, 0) + |JsonFence|) == k
    ensures FencedCandidate(text) == Strip(text[FindFrom(text, JsonFence, 0) + |JsonFence|..k])
  {
  }

  /** The same, naming the body between the two fences. */
  lemma JsonFenceBody(text: string, start: nat, k: nat, body: string)
    requires Contains(text, JsonFence) && FindFrom(text, JsonFence, 0) + |JsonFence| == start
    requires start <= k <= |text| && FindFrom(text, Fence, start) == k
    requires text[start..k] == body
    ensures FencedCandidate(text) == Strip(body)
  {
    JsonFenceAt(text, k);
    var c := Strip(text[start..k]);
    assert c == Strip(body);
  }

  /** `FencedCandidate` without "```json" when the first fence is followed by another at `k`. */
  lemma BareFenceAt(text: string, k: nat)
    requires !Contains(text, JsonFence) && Contains(text, Fence)
    requires FindFrom(text, Fence, 0) + |Fence| <= k <= |text|
    requires FindFrom(text, Fence, FindFrom(text, Fence, 0) + |Fence|) == k
    ensures FencedCandidate(text) == Strip(text[FindFrom(text, Fence, 0) + |Fence|..k])
  {
  }

  /** The same, naming the body between the two fences. */
  lemma BareFenceBody(text: string, start: nat, k: nat, body: string)
    requires !Contains(text, JsonFence) && Contains(text, Fence)
    requires FindFrom(text, Fence, 0) + |Fence| == start
    requires start <= k <= |text| && FindFrom(text, Fence, start) == k
    requires text[start..k] == body
    ensures FencedCandidate(text) == Strip(body)
  {
    BareFenceAt(text, k);
    var c := Strip(text[start..k]);
    assert c == Strip(body);
  }

  /** `FencedCandidate` when no fence follows the first "```json". */
  lemma UnclosedAt(text: string)
    requires Contains(text, JsonFence)
    requires FindFrom(text, JsonFence, 0) + |JsonFence| < |text|
    requires FindFrom(text, Fence, FindFrom(text, JsonFence, 0) + |JsonFence|) == -1
    ensures FencedCandidate(text) == Strip(text[FindFrom(text, JsonFence, 0) + |JsonFence|..|text| - 1])
  {
    var start := FindFrom(text, JsonFence, 0) + |JsonFence|;
    assert Slice(text, start, -1) == text[start..|text| - 1];
    assert FencedCandidate(text) == Strip(Slice(text, start, FindFrom(text, Fence, start)));
  }

  lemma Middle(a: string, b: string, c: string, d: string, e: string)
    ensures (a + b + c + d + e)[|a| + |b|..|a| + |b| + |c|] == c
  {
    var s := a + b + c + d + e;
    assert s[..|a| + |b| + |c|] == a + b + c;
  }

  lemma Tail(a: string, b: string, c: string)
    requires c != []
    ensures (a + b + c)[|a| + |b|..|a| + |b| + |c| - 1] == c[..|c| - 1]
  {
    var s := a + b + c;
    assert s[|a| + |b|..] == c;
  }

  /** In `pre + t + body + u + post`, with `pre` free of backquotes, the backquote-led
      `t` is first found right after `pre`. */
  lemma FirstFencePosition(text: string, pre: string, t: string, body: string, u: string, post: string)
    requires text == pre + t + body + u + post
    requires '`' !in pre && |t| > 0 && t[0] == '`'
    ensures Contains(text, t) && FindFrom(text, t, 0) == |pre|
  {
    assert forall j | 0 <= j < |pre| :: text[j] == pre[j];
    assert text[|pre|..|pre| + |t|] == t;
    FindOverPlain(text, t, 0, |pre|);
    ContainsFind(text, t);
  }

  /** Past `t`, with `body` free of backquotes, the backquote-led `u` is next found
      right after `body`. */
  lemma NextFencePosition(text: string, pre: string, t: string, body: string, u: string, post: string)
    requires text == pre + t + body + u + post
    requires '`' !in body && |u| > 0 && u[0] == '`'
    ensures FindFrom(text, u, |pre| + |t|) == |pre| + |t| + |body|
  {
    var b := |pre| + |t|;
    var c := b + |body|;
    assert forall j | b <= j < c :: text[j] == body[j - b];
    assert text[c..c + |u|] == u;
    FindOverPlain(text, u, b, c);
  }

  /** The usual shape of a fenced answer: the candidate is the trimmed fence body,
      whatever follows the closing fence. */
  lemma JsonFencedCandidate(pre: string, body: string, post: string)
    requires '`' !in pre && '`' !in body
    ensures FencedCandidate(pre + JsonFence + body + Fence + post) == Strip(body)
  {
    var text := pre + JsonFence + body + Fence + post;
    FirstFencePosition(text, pre, JsonFence, body, Fence, post);
    NextFencePosition(text, pre, JsonFence, body, Fence, post);
    Middle(pre, JsonFence, body, Fence, post);
    JsonFenceBody(text, |pre| + |JsonFence|, |pre| + |JsonFence| + |body|, body);
  }

  /** A bare fence is used only when no "```json" occurs anywhere: its trimmed body is
      the candidate, whatever follows the closing fence. */
  lemma BareFencedCandidate(pre: string, body: string, post: string)
    requires '`' !in pre && '`' !in body
    requires !Contains(pre + Fence + body + Fence + post, JsonFence)
    ensures FencedCandidate(pre + Fence + body + Fence + post) == Strip(body)
  {
    var text := pre + Fence + body + Fence + post;
    FirstFencePosition(text, pre, Fence, body, Fence, post);
    NextFencePosition(text, pre, Fence, body, Fence, post);
    Middle(pre, Fence, body, Fence, post);
    BareFenceBody(text, |pre| + |Fence|, |pre| + |Fence| + |body|, body);
  }

  /** Without a closing fence `find` answers -1, and the slice loses the last character. */
  lemma UnclosedJsonFence(pre: string, body: string)
    requires '`' !in pre && '`' !in body && body != []
    ensures FencedCandidate(pre + JsonFence + body) == Strip(body[..|body| - 1])
  {
    var text := pre + JsonFence + body;
    FindPast([], pre, JsonFence, body);
    assert [] + pre + JsonFence + body == text;
    NothingPast(pre + JsonFence, body, Fence);
    Tail(pre, JsonFence, body);
    ContainsFind(text, JsonFence);
    assert |JsonFence| == 7;
    assert FindFrom(text, JsonFence, 0) == |pre|;
    assert FindFrom(text, Fence, |pre| + 7) == -1;
    assert text[|pre| + 7..|text| - 1] == body[..|body| - 1];
    UnclosedAt(text);
    assert FencedCandidate(text) == Strip(text[|pre| + 7..|text| - 1]);
  }

  /* ------------------------------------------------------- comment removal */

  /** No `a` is directly followed by `b`. */
  predicate NoPair(s: string, a: char, b: char)
  {
    forall i | 0 <= i < |s| - 1 :: !(s[i] == a && s[i + 1] == b)
  }

  lemma StartsWithPair(s: string, a: char, b: char)
    ensures StartsWith(s, [a, b]) <==> |s| >= 2 && s[0] == a && s[1] == b
  {
    if |s| >= 2 {
      assert s[..2] == [s[0], s[1]];
    }
  }

  lemma NoPairNotContains(s: string, a: char, b: char)
    ensures NoPair(s, a, b) <==> !Contains(s, [a, b])
  {
    if !NoPair(s, a, b) {
      var i :| 0 <= i < |s| - 1 && s[i] == a && s[i + 1] == b;
      assert s[i..i + 2] == [a, b];
      assert OccursAt(s, [a, b], i);
    }
    if Contains(s, [a, b]) {
      var i :| 0 <= i <= |s| && OccursAt(s, [a, b], i);
      assert s[i..i + 2][0] == s[i] && s[i..i + 2][1] == s[i + 1];
    }
  }

  /** Everything up to, not including, the next newline is dropped. */
  function SkipToNewline(s: string): (r: string)
    ensures |r| <= |s| && r == s[|s| - |r|..]
    ensures r == [] || r[0] == '\n'
    ensures '\n' !in s[..|s| - |r|]
    ensures s != [] && s[0] != '\n' ==> |r| < |s|
  {
    if s == [] || s[0] == '\n' then s else SkipToNewline(s[1..])
  }

  /** `re.sub(r'//.*?(?=\n|$)', '', s)`: from every `//` to the end of its line. */
  function StripLineComments(s: string): string
    decreases |s|
  {
    if StartsWith(s, "//") then StripLineComments(SkipToNewline(s))
    else if s == [] then []
    else [s[0]] + StripLineComments(s[1..])
  }

  lemma StripLineCommentsHead(s: string)
    ensures var r := StripLineComments(s);
            r != [] ==> r[0] == (if StartsWith(s, "//") then '\n' else s[0])
  {
    if StartsWith(s, "//") {
      var t := SkipToNewline(s);
      assert !StartsWith(t, "//");
    }
  }

  lemma {:induction false} NoLineCommentLeft(s: string)
    ensures NoPair(StripLineComments(s), '/', '/')
    decreases |s|
  {
    if StartsWith(s, "//") {
      NoLineCommentLeft(SkipToNewline(s));
    } else if s != [] {
      NoLineCommentLeft(s[1..]);
      StripLineCommentsHead(s[1..]);
      if |s| >= 2 && s[0] == '/' {
        assert s[..2] != "//";
        assert !StartsWith(s[1..], "//");
      }
    }
  }

  /** After the clean-up no `//` is left anywhere. */
  lemma LineCommentsGone(s: string)
    ensures !Contains(StripLineComments(s), "//")
  {
    NoLineCommentLeft(s);
    NoPairNotContains(StripLineComments(s), '/', '/');
  }

  lemma {:induction false} NoPairStripLineComments(s: string)
    requires NoPair(s, '/', '/')
    ensures StripLineComments(s) == s
  {
    if s != [] {
      StartsWithPair(s, '/', '/');
      NoPairStripLineComments(s[1..]);
    }
  }

  /** A text without `//` passes unchanged. */
  lemma LineCommentFree(s: string)
    requires !Contains(s, "//")
    ensures StripLineComments(s) == s
  {
    NoPairNotContains(s, '/', '/');
    NoPairStripLineComments(s);
  }

  /** A `//` inside a string value (a URL) still cuts off the rest of its line. */
  lemma {:induction false} CommentRunsToEndOfLine(a: string, b: string)
    requires NoPair(a, '/', '/') && (a == [] || a[|a| - 1] != '/') && '\n' !in b
    ensures StripLineComments(a + "//" + b) == a
  {
    var s := a + "//" + b;
    if a == [] {
      assert s == "//" + b;
      var t := SkipToNewline(s);
      assert t == [];
    } else {
      assert s[0] == a[0] && s[1..] == a[1..] + "//" + b;
      StartsWithPair(s, '/', '/');
      assert s[1] == (if |a| >= 2 then a[1] else '/');
      CommentRunsToEndOfLine(a[1..], b);
    }
  }

  lemma {:induction false} NoNewlines(s: string)
    requires '\n' !in s
    ensures Count('\n', s) == 0
  {
    if s != [] {
      NoNewlines(s[1..]);
    }
  }

  /** Line comments never take the newline that ends them. */
  lemma {:induction false} LineCommentsKeepLines(s: string)
    ensures Count('\n', StripLineComments(s)) == Count('\n', s)
    decreases |s|
  {
    if StartsWith(s, "//") {
      var t := SkipToNewline(s);
      assert s == s[..|s| - |t|] + t;
      CountAppend('\n', s[..|s| - |t|], t);
      NoNewlines(s[..|s| - |t|]);
      LineCommentsKeepLines(t);
    } else if s != [] {
      LineCommentsKeepLines(s[1..]);
    }
  }

  /** `re.sub(r'/\*.*?\*\/', '', s, flags=re.DOTALL)`: every block comment, across
      lines, up to the FIRST closing mark; an opening mark without a closing one stays. */
  function StripBlockComments(s: string): string
    decreases |s|
  {
    if StartsWith(s, "/*") && FindFrom(s[2..], "*/", 0) >= 0 then
      var close := 2 + FindFrom(s[2..], "*/", 0);
      StripBlockComments(s[close + 2..])
    else if s == [] then []
    else [s[0]] + StripBlockComments(s[1..])
  }

  lemma {:induction false} NoPairStripBlockComments(s: string)
    requires NoPair(s, '/', '*')
    ensures StripBlockComments(s) == s
  {
    if s != [] {
      StartsWithPair(s, '/', '*');
      NoPairStripBlockComments(s[1..]);
    }
  }

  /** A text without an opening block-comment mark passes unchanged. */
  lemma BlockCommentFree(s: string)
    requires !Contains(s, "/*")
    ensures StripBlockComments(s) == s
  {
    NoPairNotContains(s, '/', '*');
    NoPairStripBlockComments(s);
  }

  /** The match is non-greedy: a comment ends at its first closing mark, and what follows
      is cleaned on its own. */
  lemma BlockCommentEndsAtFirstClose(x: string, y: string)
    requires !Contains(x, "*/")
    ensures StripBlockComments("/*" + x + "*/" + y) == StripBlockComments(y)
  {
    var s := "/*" + x + "*/" + y;
    var u := s[2..];
    assert u == x + "*/" + y;
    NoPairNotContains(x, '*', '/');
    assert u[|x|..|x| + 2] == "*/";
    forall j | 0 <= j < |x| ensures !OccursAt(u, "*/", j) {
      if j + 2 <= |u| {
        assert u[j..j + 2][0] == u[j] && u[j..j + 2][1] == u[j + 1];
        if j < |x| - 1 {
          assert u[j] == x[j] && u[j + 1] == x[j + 1];
        } else {
          assert u[j + 1] == '*';
        }
      }
    }
    FindFromIs(u, "*/", 0, |x|);
    assert s[..2] == "/*";
    assert s[2 + |x| + 2..] == y;
  }

  /* -------------------------------------------------------- trailing commas */

  /** `\s*[}\]]` matches at the start of `s`. */
  predicate ClosesAfterSpace(s: string)
  {
    var t := TrimLeft(s);
    t != [] && (t[0] == '}' || t[0] == ']')
  }

  /** `re.sub(r',(\s*[}\]])', r'\1', s)`: each comma that only whitespace separates
      from a closing bracket is dropped; the whitespace and the bracket stay. */
  function DropTrailingCommas(s: string): string
  {
    if s == [] then []
    else if s[0] == ',' && ClosesAfterSpace(s[1..]) then DropTrailingCommas(s[1..])
    else [s[0]] + DropTrailingCommas(s[1..])
  }

  predicate HasTrailingComma(s: string)
  {
    exists i | 0 <= i < |s| :: s[i] == ',' && ClosesAfterSpace(s[i + 1..])
  }

  /** A text without a trailing comma passes unchanged. */
  lemma {:induction false} NoTrailingCommaUnchanged(s: string)
    requires !HasTrailingComma(s)
    ensures DropTrailingCommas(s) == s
  {
    if s != [] {
      assert !(s[0] == ',' && ClosesAfterSpace(s[1..]));
      forall i | 0 <= i < |s[1..]| && s[1..][i] == ',' ensures !ClosesAfterSpace(s[1..][i + 1..]) {
        assert s[1..][i + 1..] == s[i + 2..];
      }
      NoTrailingCommaUnchanged(s[1..]);
    }
  }

  lemma {:induction false} CommaFreePrefixKept(w: string, t: string)
    requires forall i | 0 <= i < |w| :: w[i] != ','
    ensures DropTrailingCommas(w + t) == w + DropTrailingCommas(t)
  {
    if w != [] {
      var s := w + t;
      var u := w[1..] + t;
      assert s[0] == w[0] && s[1..] == u;
      assert DropTrailingCommas(s) == [w[0]] + DropTrailingCommas(u);
      CommaFreePrefixKept(w[1..], t);
      assert w == [w[0]] + w[1..];
    } else {
      assert w + t == t;
    }
  }

  lemma {:induction false} TrimLeftSpaces(w: string, t: string)
    requires AllSpace(w) && (t == [] || !IsSpace(t[0]))
    ensures TrimLeft(w + t) == t
  {
    if w != [] {
      assert (w + t)[1..] == w[1..] + t;
      TrimLeftSpaces(w[1..], t);
    } else {
      assert w + t == t;
    }
  }

  /** The comma goes; the whitespace and the closing bracket after it stay. */
  lemma TrailingCommaDropped(w: string, close: char, rest: string)
    requires AllSpace(w) && (close == '}' || close == ']')
    ensures DropTrailingCommas([','] + w + [close] + rest) == w + [close] + DropTrailingCommas(rest)
  {
    var after := [close] + rest;
    assert [','] + w + [close] + rest == [','] + (w + after);
    ClosesAfterSpaces(w, close, rest);
    CommaDropped(w + after);
    SpacesAreNotCommas(w);
    CommaFreePrefixKept(w, after);
    KeptAfterClose(close, rest);
  }

  lemma CommaDropped(t: string)
    requires ClosesAfterSpace(t)
    ensures DropTrailingCommas([','] + t) == DropTrailingCommas(t)
  {
    assert ([','] + t)[1..] == t;
  }

  lemma SpacesAreNotCommas(w: string)
    requires AllSpace(w)
    ensures forall i | 0 <= i < |w| :: w[i] != ','
  {
    forall i | 0 <= i < |w| ensures w[i] != ',' {
      assert IsSpace(w[i]);
    }
  }

  lemma KeptAfterClose(close: char, rest: string)
    requires close == '}' || close == ']'
    ensures DropTrailingCommas([close] + rest) == [close] + DropTrailingCommas(rest)
  {
    assert ([close] + rest)[1..] == rest;
  }

  lemma ClosesAfterSpaces(w: string, close: char, rest: string)
    requires AllSpace(w) && (close == '}' || close == ']')
    ensures ClosesAfterSpace(w + ([close] + rest))
  {
    TrimLeftSpaces(w, [close] + rest);
  }

  /* ---------------------------------------------------- control characters */

  /** The class `[\x00-\x08\x0b\x0c\x0e-\x1f]`: tab, line feed and carriage return are not in it. */
  predicate IsStrayControl(c: char)
  {
    ('\0' <= c <= '\U{8}') || c == '\U{b}' || c == '\U{c}' || ('\U{e}' <= c <= '\U{1f}')
  }

  /** `re.sub(r'[\x00-\x08\x0b\x0c\x0e-\x1f]', '', s)` */
  function RemoveControl(s: string): (r: string)
    ensures forall i | 0 <= i < |r| :: !IsStrayControl(r[i])
  {
    if s == [] then []
    else (if IsStrayControl(s[0]) then [] else [s[0]]) + RemoveControl(s[1..])
  }

  lemma {:induction false} RemoveControlAppend(a: string, b: string)
    ensures RemoveControl(a + b) == RemoveControl(a) + RemoveControl(b)
  {
    if a == [] {
      assert a + b == b;
    } else {
      assert (a + b)[0] == a[0] && (a + b)[1..] == a[1..] + b;
      RemoveControlAppend(a[1..], b);
    }
  }

  lemma {:induction false} RemoveControlJoin(lines: seq<string>, cleaned: seq<string>)
    requires |cleaned| == |lines|
    requires forall k | 0 <= k < |lines| :: cleaned[k] == RemoveControl(lines[k])
    ensures Join("\n", cleaned) == RemoveControl(Join("\n", lines))
  {
    if |lines| == 1 {
      assert Join("\n", cleaned) == cleaned[0];
    } else if |lines| > 1 {
      var tail := Join("\n", lines[1..]);
      assert Join("\n", lines) == lines[0] + ("\n" + tail);
      assert Join("\n", cleaned) == cleaned[0] + "\n" + Join("\n", cleaned[1..]);
      RemoveControlJoin(lines[1..], cleaned[1..]);
      assert Join("\n", cleaned[1..]) == RemoveControl(tail);
      RemoveControlAppend(lines[0], "\n" + tail);
      RemoveControlAppend("\n", tail);
      assert RemoveControl("\n") == "\n";
    }
  }

  /** Lines 48-57: split on newlines, clean each line, join again. */
  method CleanControlCharacters(s: string) returns (r: string)
    ensures r == RemoveControl(s)
  {
    var lines := Split(s, '\n');
    var cleaned: seq<string> := [];
    for i := 0 to |lines|
      invariant |cleaned| == i
      invariant forall k | 0 <= k < i :: cleaned[k] == RemoveControl(lines[k])
    {
      cleaned := cleaned + [RemoveControl(lines[i])];
    }
    r := Join("\n", cleaned);
    RemoveControlJoin(lines, cleaned);
    JoinSplit(s, '\n');
  }

  /** The substitution deletes every occurrence of a stray control character and keeps
      every occurrence of any other character. */
  lemma {:induction false} RemoveControlCounts(s: string, c: char)
    ensures Count(c, RemoveControl(s)) == if IsStrayControl(c) then 0 else Count(c, s)
  {
    if s != [] {
      RemoveControlCounts(s[1..], c);
      var head := if IsStrayControl(s[0]) then [] else [s[0]];
      CountAppend(c, head, RemoveControl(s[1..]));
    }
  }

  /** The retry keeps every character outside the class, tab, line feed and carriage
      return among them, and so the number of lines. */
  lemma ControlRetryKeepsLines(s: string)
    ensures forall c | !IsStrayControl(c) :: Count(c, RemoveControl(s)) == Count(c, s)
    ensures |Split(RemoveControl(s), '\n')| == |Split(s, '\n')|
  {
    forall c | !IsStrayControl(c) ensures Count(c, RemoveControl(s)) == Count(c, s) {
      RemoveControlCounts(s, c);
    }
    SplitCount(s, '\n');
    SplitCount(RemoveControl(s), '\n');
  }

  /* ------------------------------------------------------ manual extraction */

  const ManualKeys: seq<string> :=
    ["company", "company_name", "ticker", "exists", "industry", "description", "reason"]
  const ManualFlag: string := "_manual_extraction"

  /** The flag is none of the keys: it starts with an underscore, they do not. */
  lemma FlagIsNoKey()
    ensures ManualFlag !in ManualKeys
  {
    assert ManualFlag[0] == '_';
    forall k | k in ManualKeys ensures k != ManualFlag {
      assert k[0] != '_';
    }
  }

  /** Under `re.IGNORECASE` the lower-case pattern character `p` matches `c`: its ASCII
      capital, and for i, s and k the non-ASCII letters Python folds onto them. */
  predicate CharMatchesIgnoreCase(c: char, p: char)
  {
    || LowerChar(c) == p
    || (p == 'i' && (c == '\U{130}' || c == '\U{131}'))
    || (p == 's' && c == '\U{17f}')
    || (p == 'k' && c == '\U{212a}')
  }

  predicate MatchesIgnoreCase(s: string, p: string)
  {
    |s| == |p| && forall i | 0 <= i < |s| :: CharMatchesIgnoreCase(s[i], p[i])
  }

  /** The literal head `"key":` of a pattern. */
  function KeyHead(key: string): string
  {
    "\"" + key + "\":"
  }

  /** `"key":\s*"([^"]*)"` tried at the start of `s`: the captured value. */
  function MatchAt(s: string, key: string): (r: Option<string>)
    ensures r.Some? ==> '"' !in r.value
  {
    var head := KeyHead(key);
    if |head| <= |s| && MatchesIgnoreCase(s[..|head|], head) then
      var t := TrimLeft(s[|head|..]);
      if t != [] && t[0] == '"' && '"' in t[1..] then Some(t[1..][..IndexOf(t[1..], '"')])
      else None
    else None
  }

  /** `re.search(pattern, s, re.IGNORECASE).group(1)`: the leftmost match. */
  function Search(s: string, key: string): (r: Option<string>)
    ensures r.Some? ==> '"' !in r.value
  {
    if MatchAt(s, key).Some? then MatchAt(s, key)
    else if s == [] then None
    else Search(s[1..], key)
  }

  /** A well-formed `"key": "value"` pair is read back exactly. */
  lemma {:induction false} IndexOfIs(s: string, c: char, k: nat)
    requires k < |s| && s[k] == c && c !in s[..k]
    ensures IndexOf(s, c) == k
  {
    if k > 0 {
      assert s[0] in s[..k];
      assert s[1..][..k - 1] == s[1..k];
      assert forall x | x in s[1..k] :: x in s[..k];
      IndexOfIs(s[1..], c, k - 1);
    }
  }

  lemma HeadMatchesItself(key: string)
    requires forall i | 0 <= i < |key| :: LowerChar(key[i]) == key[i]
    ensures MatchesIgnoreCase(KeyHead(key), KeyHead(key))
  {
    var head := KeyHead(key);
    forall i | 0 <= i < |head| ensures CharMatchesIgnoreCase(head[i], head[i]) {
      if 0 < i < |head| - 2 {
        assert head[i] == key[i - 1];
      }
    }
  }

  lemma PairLayout(head: string, w: string, v: string, rest: string)
    ensures head + w + "\"" + v + "\"" + rest == head + (w + ("\"" + (v + "\"" + rest)))
  {
  }

  lemma MatchRoundTrip(key: string, w: string, v: string, rest: string)
    requires forall i | 0 <= i < |key| :: LowerChar(key[i]) == key[i]
    requires AllSpace(w) && '"' !in v
    ensures MatchAt(KeyHead(key) + w + "\"" + v + "\"" + rest, key) == Some(v)
  {
    var head := KeyHead(key);
    var u := v + "\"" + rest;
    var t := "\"" + u;
    PairLayout(head, w, v, rest);
    var s := head + (w + t);
    assert s[..|head|] == head && s[|head|..] == w + t;
    HeadMatchesItself(key);
    TrimLeftSpaces(w, t);
    assert t[1..] == u && u[..|v|] == v;
    IndexOfIs(u, '"', |v|);
    assert MatchAt(s, key) == Some(v);
  }

  /** `Search` answers the match at the leftmost position that has one. */
  lemma {:induction false} SearchIsLeftmost(s: string, key: string, i: nat)
    requires i <= |s| && MatchAt(s[i..], key).Some?
    requires forall j | 0 <= j < i :: MatchAt(s[j..], key).None?
    ensures Search(s, key) == MatchAt(s[i..], key)
  {
    if i > 0 {
      assert MatchAt(s[0..], key).None? && s[0..] == s;
      forall j | 0 <= j < i - 1 ensures MatchAt(s[1..][j..], key).None? {
        assert s[1..][j..] == s[j + 1..];
      }
      assert s[1..][i - 1..] == s[i..];
      SearchIsLeftmost(s[1..], key, i - 1);
    }
  }

  /** The fields found by the patterns for `keys`, one per key that matches. */
  function FoundFields(text: string, keys: seq<string>): (m: map<string, Json>)
    ensures forall k | k in m :: k in keys && Search(text, k).Some? && m[k] == JStr(Search(text, k).value)
    ensures forall k | k in keys :: (k in m <==> Search(text, k).Some?)
  {
    if keys == [] then map[]
    else
      var m := FoundFields(text, keys[..|keys| - 1]);
      var k := keys[|keys| - 1];
      assert forall x | x in keys :: x in keys[..|keys| - 1] || x == k;
      match Search(text, k)
      case Some(v) => m[k := JStr(v)]
      case None => m
  }

  /** Nothing is found exactly when no pattern matches. */
  lemma FoundNothing(text: string, keys: seq<string>)
    ensures FoundFields(text, keys) == map[] <==> forall k | k in keys :: Search(text, k).None?
  {
    var m := FoundFields(text, keys);
    if !(forall k | k in keys :: Search(text, k).None?) {
      var k :| k in keys && Search(text, k).Some?;
      assert k in m;
    }
  }

  /** The loop of lines 97-102 over the patterns, in order. */
  method FindFields(text: string, keys: seq<string>) returns (m: map<string, Json>)
    ensures m == FoundFields(text, keys)
  {
    m := map[];
    for i := 0 to |keys|
      invariant m == FoundFields(text, keys[..i])
    {
      var prefix := keys[..i + 1];
      assert prefix[..|prefix| - 1] == keys[..i] && prefix[|prefix| - 1] == keys[i];
      var found := Search(text, keys[i]);
      if found.Some? {
        m := m[keys[i] := JStr(found.value)];
      }
    }
    assert keys[..|keys|] == keys;
  }

  /** Lines 105-111: one of `company` and `company_name` stands in for the other. */
  function WithAliases(m: map<string, Json>): (r: map<string, Json>)
    ensures forall k | k in m :: k in r && r[k] == m[k]
    ensures forall k | k in r && k !in m :: k == "company" || k == "company_name"
    ensures "company" in r <==> "company" in m || "company_name" in m
    ensures "company_name" in r <==> "company" in m || "company_name" in m
    ensures "company" in m && "company_name" !in m ==> r["company_name"] == m["company"]
    ensures "company_name" in m && "company" !in m ==> r["company"] == m["company_name"]
  {
    var m1 := if "company" in m && "company_name" !in m then m["company_name" := m["company"]] else m;
    if "company_name" in m1 && "company" !in m1 then m1["company" := m1["company_name"]] else m1
  }

  /** `_attempt_manual_json_extraction`: `None` stands for its `ValueError`. */
  function ManualExtraction(text: string): Option<map<string, Json>>
  {
    Flagged(WithAliases(FoundFields(text, ManualKeys)))
  }

  /** Lines 113-115: `None` for an empty result, else the result with the marker. */
  function Flagged(m: map<string, Json>): Option<map<string, Json>>
  {
    if m == map[] then None else Some(m[ManualFlag := JBool(true)])
  }

  /** What the degraded path returns, and when it gives up. */
  lemma ManualExtractionShape(text: string)
    ensures ManualExtraction(text).None? <==> forall k | k in ManualKeys :: Search(text, k).None?
    ensures ManualExtraction(text).Some? ==>
      var r := ManualExtraction(text).value;
      && (forall k | k in r :: k in ManualKeys || k == ManualFlag)
      && r[ManualFlag] == JBool(true)
      && ("company" in r <==> "company_name" in r)
      && (forall k | k in r && k != ManualFlag :: r[k].JStr? && '"' !in r[k].s)
  {
    var found := FoundFields(text, ManualKeys);
    FoundNothing(text, ManualKeys);
    var m := WithAliases(found);
    assert m == map[] <==> found == map[] by {
      if found != map[] {
        var k :| k in found;
        assert k in m;
      }
    }
  }

  /** Every key whose pattern matches is in the result with the captured value. */
  lemma ManualExtractionFinds(text: string, k: string)
    requires k in ManualKeys && Search(text, k).Some?
    ensures ManualExtraction(text).Some?
    ensures k in ManualExtraction(text).value
    ensures ManualExtraction(text).value[k] == JStr(Search(text, k).value)
  {
    var found := FoundFields(text, ManualKeys);
    assert k in found;
    var m := WithAliases(found);
    assert k in m && m[k] == found[k];
    FlagIsNoKey();
    assert ManualExtraction(text) == Some(m[ManualFlag := JBool(true)]);
  }

  /** Only `company` found: `company_name` receives the same value. */
  lemma CompanyCopiedToCompanyName(text: string)
    requires Search(text, "company").Some? && Search(text, "company_name").None?
    ensures ManualExtraction(text).Some? && "company_name" in ManualExtraction(text).value
    ensures ManualExtraction(text).value["company_name"] == JStr(Search(text, "company").value)
  {
    ManualExtractionFinds(text, "company");
    var found := FoundFields(text, ManualKeys);
    assert "company_name" in ManualKeys && "company_name" !in found;
    assert ManualFlag != "company_name";
  }

  /** Only `company_name` found: `company` receives the same value. */
  lemma CompanyNameCopiedToCompany(text: string)
    requires Search(text, "company_name").Some? && Search(text, "company").None?
    ensures ManualExtraction(text).Some? && "company" in ManualExtraction(text).value
    ensures ManualExtraction(text).value["company"] == JStr(Search(text, "company_name").value)
  {
    ManualExtractionFinds(text, "company_name");
    var found := FoundFields(text, ManualKeys);
    assert "company" in ManualKeys && "company" !in found;
    assert ManualFlag != "company";
  }

  /** Lines 87-115: the patterns, the aliases, the marker, or `None` for the `ValueError`. */
  method ManualJsonExtraction(text: string) returns (r: Option<map<string, Json>>)
    ensures r == ManualExtraction(text)
  {
    var result := FindFields(text, ManualKeys);
    if "company" in result && "company_name" !in result {
      result := result["company_name" := result["company"]];
    }
    if "company_name" in result && "company" !in result {
      result := result["company" := result["company_name"]];
    }
    if result != map[] {
      result := result[ManualFlag := JBool(true)];
      return Some(result);
    }
    return None;
  }

  /* ------------------------------------------------------------- the whole */

  /** The candidate after the three clean-ups, in source order. */
  function Cleaned(text: string): string
  {
    DropTrailingCommas(StripBlockComments(StripLineComments(FencedCandidate(text))))
  }

  /** `text[:n] + "..." if len(text) > n else text` */
  function Preview(text: string, n: nat): (r: string)
    ensures |r| <= n + 3
    ensures |text| <= n ==> r == text
    ensures |text| > n ==> r == text[..n] + "..."
  {
    if |text| > n then text[..n] + "..." else text
  }

  /** The record of lines 69-74. */
  function ParseFailureRecord(text: string, message: string, line: nat, column: nat): Json
  {
    JObj(map[
      "error" := JStr("Failed to parse JSON response"),
      "raw_text" := JStr(Preview(text, 1000)),
      "parse_error" := JStr(message),
      "error_position" := JStr("line " + NatToString(line) + " column " + NatToString(column))])
  }

  /** The record of lines 76-79. */
  function UnexpectedErrorRecord(text: string, message: string): Json
  {
    JObj(map[
      "error" := JStr("Unexpected error during JSON parsing: " + message),
      "raw_text" := JStr(Preview(text, 500))])
  }

  /** `extract_json_from_response(text)`, with `json.loads` as `parse`. */
  function Extract(text: string, parse: string -> ParseOutcome): Json
  {
    var cleaned := Cleaned(text);
    match parse(cleaned)
    case Parsed(v) => v
    case Crash(m) => UnexpectedErrorRecord(text, m)
    case DecodeError(_, _, _) =>
      match parse(RemoveControl(cleaned))
      case Parsed(v) => v
      case Crash(m) => UnexpectedErrorRecord(text, m)
      case DecodeError(message, line, column) =>
        match ManualExtraction(text)
        case Some(fields) => JObj(fields)
        case None => ParseFailureRecord(text, message, line, column)
  }

  /** Lines 14-79 step by step; it never raises. */
  method ExtractJsonFromResponse(text: string, parse: string -> ParseOutcome) returns (r: Json)
    ensures r == Extract(text, parse)
  {
    var jsonStr := FencedCandidate(text);
    jsonStr := StripLineComments(jsonStr);
    jsonStr := StripBlockComments(jsonStr);
    jsonStr := DropTrailingCommas(jsonStr);
    var first := parse(jsonStr);
    if first.Parsed? {
      return first.value;
    } else if first.Crash? {
      return UnexpectedErrorRecord(text, first.message);
    }
    jsonStr := CleanControlCharacters(jsonStr);
    var second := parse(jsonStr);
    if second.Parsed? {
      return second.value;
    } else if second.Crash? {
      return UnexpectedErrorRecord(text, second.message);
    }
    var manual := ManualJsonExtraction(text);
    if manual.Some? {
      return JObj(manual.value);
    }
    return ParseFailureRecord(text, second.message, second.line, second.column);
  }

  /** Plain JSON (no fence, no comment marks, no trailing comma) is exactly what the
      strict parser makes of the trimmed text. */
  lemma PlainJsonParsedAsIs(text: string, parse: string -> ParseOutcome)
    requires !Contains(text, Fence)
    requires !Contains(Strip(text), "//") && !Contains(Strip(text), "/*")
    requires !HasTrailingComma(Strip(text))
    requires parse(Strip(text)).Parsed?
    ensures Extract(text, parse) == parse(Strip(text)).value
  {
    UnfencedCandidate(text);
    LineCommentFree(Strip(text));
    BlockCommentFree(Strip(text));
    NoTrailingCommaUnchanged(Strip(text));
  }

  /** When both parses fail, the regexes scan the ORIGINAL text, comments, fences and all;
      when they find nothing, the failure record keeps at most 1000 characters of it. */
  lemma DegradedPath(text: string, parse: string -> ParseOutcome)
    requires parse(Cleaned(text)).DecodeError?
    requires parse(RemoveControl(Cleaned(text))).DecodeError?
    ensures ManualExtraction(text).Some? ==> Extract(text, parse) == JObj(ManualExtraction(text).value)
    ensures ManualExtraction(text).None? ==>
      && Extract(text, parse).JObj?
      && "error" in Extract(text, parse).fields && "raw_text" in Extract(text, parse).fields
    ensures ManualExtraction(text).None? ==>
      && Extract(text, parse).fields["error"] == JStr("Failed to parse JSON response")
      && Extract(text, parse).fields["raw_text"] == JStr(Preview(text, 1000))
      && |Preview(text, 1000)| <= 1003
      && (|text| <= 1000 ==> Preview(text, 1000) == text)
  {
    var second := parse(RemoveControl(Cleaned(text)));
    FailureRecordShape(text, second.message, second.line, second.column);
  }

  lemma FailureRecordShape(text: string, message: string, line: nat, column: nat)
    ensures var r := ParseFailureRecord(text, message, line, column);
      && r.JObj? && "error" in r.fields && "raw_text" in r.fields
      && r.fields["error"] == JStr("Failed to parse JSON response")
      && r.fields["raw_text"] == JStr(Preview(text, 1000))
  {
  }

  /** Any exception other than a decode error, on either attempt, gives the record of
      lines 76-79, with at most 500 characters of the text. */
  lemma UnexpectedErrorPath(text: string, parse: string -> ParseOutcome)
    requires parse(Cleaned(text)).Crash?
          || (parse(Cleaned(text)).DecodeError? && parse(RemoveControl(Cleaned(text))).Crash?)
    ensures var r := Extract(text, parse);
      && r.JObj? && r.fields.Keys == {"error", "raw_text"}
      && r.fields["raw_text"] == JStr(Preview(text, 500))
      && |Preview(text, 500)| <= 503
      && (|text| <= 500 ==> Preview(text, 500) == text)
      && (|text| > 500 ==> Preview(text, 500) == text[..500] + "...")
  {
    var first := parse(Cleaned(text));
    var second := parse(RemoveControl(Cleaned(text)));
    UnexpectedRecordShape(text, if first.Crash? then first.message else second.message);
  }

  lemma UnexpectedRecordShape(text: string, message: string)
    ensures var r := UnexpectedErrorRecord(text, message);
      r.JObj? && r.fields.Keys == {"error", "raw_text"} && r.fields["raw_text"] == JStr(Preview(text, 500))
  {
  }

  /** A value the strict parser accepts, on either attempt, is returned unchanged. */
  lemma ParsedValueReturned(text: string, parse: string -> ParseOutcome)
    ensures parse(Cleaned(text)).Parsed? ==> Extract(text, parse) == parse(Cleaned(text)).value
    ensures parse(Cleaned(text)).DecodeError? && parse(RemoveControl(Cleaned(text))).Parsed? ==>
      Extract(text, parse) == parse(RemoveControl(Cleaned(text))).value
  {
  }
}
