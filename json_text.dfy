/** `cleanJsonText` of services/geminiService.ts: strip Markdown code fences
    from a model response, then trim it. */
module JsonText {

  const Tick: char := '`'
  /** The plain fence "```". */
  const Fence: string := [Tick, Tick, Tick]
  /** The opening fence of a JSON block, "```json". */
  const JsonFence: string := Fence + "json"

  /** The characters `String.prototype.trim` removes: white space and line
      terminators of ECMAScript (section 12.2 and 12.3 of ECMA-262). */
  predicate IsWhitespace(c: char) {
    c == ' ' || c == '\t' || c == '\n' || c == '\U{000B}' || c == '\U{000C}' || c == '\r'
    || c == '\U{00A0}' || c == '\U{1680}' || ('\U{2000}' <= c <= '\U{200A}')
    || c == '\U{2028}' || c == '\U{2029}' || c == '\U{202F}' || c == '\U{205F}'
    || c == '\U{3000}' || c == '\U{FEFF}'
  }

  /** Drops one leading newline, the `\n?` of the fence patterns. */
  function SkipNewline(s: string): (r: string)
    ensures r == s || (s != [] && s[0] == '\n' && r == s[1..])
  {
    if |s| > 0 && s[0] == '\n' then s[1..] else s
  }

  /** `s.replace(/<pattern>\n?/g, "")`: scanning left to right, every occurrence
      of `pattern` that does not overlap an earlier one is removed together
      with the newline right after it, if there is one. */
  function RemoveAll(s: string, pattern: string): (r: string)
    requires |pattern| > 0
    ensures |r| <= |s|
    ensures forall c :: c in r ==> c in s
    decreases |s|
  {
    if s == [] then []
    else if pattern <= s then RemoveAll(SkipNewline(s[|pattern|..]), pattern)
    else [s[0]] + RemoveAll(s[1..], pattern)
  }

  /** `trimStart`: removes exactly the longest all-white-space prefix. */
  function TrimStart(s: string): (r: string)
    ensures |r| <= |s| && r == s[|s| - |r|..]
    ensures r == [] || !IsWhitespace(r[0])
    ensures forall i :: 0 <= i < |s| - |r| ==> IsWhitespace(s[i])
    decreases |s|
  {
    if s != [] && IsWhitespace(s[0]) then TrimStart(s[1..]) else s
  }

  /** `trimEnd`: removes exactly the longest all-white-space suffix. */
  function TrimEnd(s: string): (r: string)
    ensures |r| <= |s| && r == s[..|r|]
    ensures r == [] || !IsWhitespace(r[|r| - 1])
    ensures forall i :: |r| <= i < |s| ==> IsWhitespace(s[i])
    decreases |s|
  {
    if s != [] && IsWhitespace(s[|s| - 1]) then TrimEnd(s[..|s| - 1]) else s
  }

  /** `trim`: white space removed at both ends, none left at either end
      (`TrimKeepsInfix` shows that nothing else is removed). */
  function Trim(s: string): (r: string)
    ensures |r| <= |s|
    ensures r == [] || (!IsWhitespace(r[0]) && !IsWhitespace(r[|r| - 1]))
  {
    var e := TrimEnd(s);
    var r := TrimStart(e);
    assert r != [] ==> r[|r| - 1] == e[|e| - 1];
    r
  }

  /** What `trim` removes is white space at the ends and nothing else: the
      result is the slice `s[i..j]`, and every character outside it is white space. */
  lemma TrimKeepsInfix(s: string)
    ensures exists i, j :: (0 <= i <= j <= |s| && Trim(s) == s[i..j]
      && (forall k :: 0 <= k < i ==> IsWhitespace(s[k]))
      && (forall k :: j <= k < |s| ==> IsWhitespace(s[k])))
  {
    var e := TrimEnd(s);
    var r := TrimStart(e);
    var i, j := |e| - |r|, |e|;
    assert r == s[i..j];
    assert forall k :: 0 <= k < i ==> s[k] == e[k];
  }

  /** `cleanJsonText`: every "```json" (and a newline after it) is removed,
      then every "```" (and a newline after it), then the text is trimmed.
      The result holds no "```" and has no white space at either end. */
  function CleanJsonText(text: string): (r: string)
    ensures FenceFree(r)
    ensures r == [] || (!IsWhitespace(r[0]) && !IsWhitespace(r[|r| - 1]))
  {
    var stripped := RemoveAll(RemoveAll(text, JsonFence), Fence);
    RemoveAllFenceFree(RemoveAll(text, JsonFence));
    var e := TrimEnd(stripped);
    FenceFreeSlices(stripped, 0, |e|);
    var t := TrimStart(e);
    FenceFreeSlices(e, |e| - |t|, |e|);
    assert t == Trim(stripped);
    Trim(stripped)
  }

  /** True when no "```" starts anywhere in `s`. */
  predicate FenceFree(s: string) {
    forall i | 0 <= i <= |s| :: !(Fence <= s[i..])
  }

  /** Text with no backtick is left alone by removing any backtick-led pattern. */
  lemma {:induction false} RemoveAllWithoutTicks(s: string, pattern: string)
    requires |pattern| > 0 && pattern[0] == Tick
    requires Tick !in s
    ensures RemoveAll(s, pattern) == s
    decreases |s|
  {
    if s != [] {
      assert !(pattern <= s) by { assert s[0] != pattern[0]; }
      RemoveAllWithoutTicks(s[1..], pattern);
    }
  }

  /** A backtick-free prefix passes through removal unchanged. */
  lemma {:induction false} RemoveAllTickFreePrefix(a: string, b: string, pattern: string)
    requires |pattern| > 0 && pattern[0] == Tick
    requires Tick !in a
    ensures RemoveAll(a + b, pattern) == a + RemoveAll(b, pattern)
    decreases |a|
  {
    if a == [] {
      assert a + b == b;
    } else {
      assert (a + b)[0] == a[0] && a[0] != pattern[0];
      assert !(pattern <= a + b);
      assert (a + b)[1..] == a[1..] + b;
      calc {
        RemoveAll(a + b, pattern);
        [a[0]] + RemoveAll(a[1..] + b, pattern);
        { RemoveAllTickFreePrefix(a[1..], b, pattern); }
        [a[0]] + (a[1..] + RemoveAll(b, pattern));
        { assert a == [a[0]] + a[1..]; }
        a + RemoveAll(b, pattern);
      }
    }
  }

  /** If `t` does not start with two backticks, neither does what is left of it. */
  lemma NoDoubleTickAfterRemoval(t: string)
    requires !([Tick, Tick] <= t)
    ensures !([Tick, Tick] <= RemoveAll(t, Fence))
  {
    if t != [] {
      assert !(Fence <= t);
      if t[0] == Tick && |t| > 1 {
        assert t[1] != Tick;
        assert !(Fence <= t[1..]);
        assert RemoveAll(t[1..], Fence) == [t[1]] + RemoveAll(t[2..], Fence);
      }
    }
  }

  /** Removing every "```" leaves no "```" behind, even where removal joins
      two pieces of text. */
  lemma {:induction false} RemoveAllFenceFree(s: string)
    ensures FenceFree(RemoveAll(s, Fence))
    decreases |s|
  {
    if s == [] {
    } else if Fence <= s {
      RemoveAllFenceFree(SkipNewline(s[|Fence|..]));
    } else {
      var rest := RemoveAll(s[1..], Fence);
      RemoveAllFenceFree(s[1..]);
      var r := [s[0]] + rest;
      assert RemoveAll(s, Fence) == r;
      forall i | 0 <= i <= |r| ensures !(Fence <= r[i..]) {
        if i == 0 {
          if s[0] == Tick {
            NoDoubleTickAfterRemoval(s[1..]);
          } else {
            assert r[0] != Fence[0];
          }
        } else {
          assert r[i..] == rest[i - 1..];
          assert !(Fence <= rest[i - 1..]);
        }
      }
    }
  }

  lemma FenceFreeSlices(s: string, i: nat, j: nat)
    requires FenceFree(s) && i <= j <= |s|
    ensures FenceFree(s[i..j])
  {
    forall k | 0 <= k <= j - i ensures !(Fence <= s[i..j][k..]) {
      assert s[i..j][k..] <= s[i + k..];
    }
  }

  /** With no backtick in it, cleaning a response is just trimming it. */
  lemma CleanJsonTextWithoutTicks(text: string)
    requires Tick !in text
    ensures CleanJsonText(text) == Trim(text)
  {
    RemoveAllWithoutTicks(text, JsonFence);
    RemoveAllWithoutTicks(text, Fence);
  }

  /** The JSON pass leaves a closing fence alone: it is too short to match. */
  lemma JsonPassKeepsClosingFence()
    ensures RemoveAll("\n" + Fence, JsonFence) == "\n" + Fence
  {
    assert RemoveAll(Fence[2..], JsonFence) == Fence[2..];
    assert RemoveAll(Fence[1..], JsonFence) == Fence[1..];
    assert RemoveAll(Fence, JsonFence) == Fence;
    assert ("\n" + Fence)[1..] == Fence;
  }

  /** The JSON pass on a wrapped body removes only the opening fence and its newline. */
  lemma JsonPassOnBlock(body: string)
    requires Tick !in body
    ensures RemoveAll(JsonFence + "\n" + body + "\n" + Fence, JsonFence) == body + "\n" + Fence
  {
    var s := JsonFence + "\n" + body + "\n" + Fence;
    assert JsonFence <= s;
    assert SkipNewline(s[|JsonFence|..]) == body + ("\n" + Fence);
    RemoveAllTickFreePrefix(body, "\n" + Fence, JsonFence);
    JsonPassKeepsClosingFence();
    assert body + ("\n" + Fence) == body + "\n" + Fence;
  }

  /** The fence pass on the rest removes the closing fence. */
  lemma FencePassOnBlock(body: string)
    requires Tick !in body
    ensures RemoveAll(body + "\n" + Fence, Fence) == body + "\n"
  {
    assert Tick !in body + "\n";
    RemoveAllTickFreePrefix(body + "\n", Fence, Fence);
    assert RemoveAll(Fence, Fence) == [];
  }

  /** A backtick-free body wrapped in a JSON code block cleans to the trimmed body. */
  lemma CleanJsonTextUnwrapsBlock(body: string)
    requires Tick !in body
    ensures CleanJsonText(JsonFence + "\n" + body + "\n" + Fence) == Trim(body)
  {
    JsonPassOnBlock(body);
    FencePassOnBlock(body);
    assert TrimEnd(body + "\n") == TrimEnd(body) by {
      assert (body + "\n")[..|body|] == body;
    }
  }
}
