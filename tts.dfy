/** tts.py: `TextToSpeech`. `convert_to_ssml` recognises text that already
    has the SSML shell (`<speak …><voice name=…>…</voice></speak>`) and
    otherwise wraps the text in one; `synthesize_speech` refuses empty text
    and hands the SSML to the speech service. The regular expression of
    `convert_to_ssml` is modelled as a parser into the parts the pattern
    leaves free (`Shell`) and a renderer back to text. */
module Tts {
  import opened Wrappers
  import opened BytesIo

  const DefaultVoiceName: string := "zh-CN-XiaoxiaoMultilingualNeural"
  const SynthesisNamespace: string := "http://www.w3.org/2001/10/synthesis"

  // ---------------------------------------------------------------------------
  // Character classes of the pattern

  /** `\s` on a `str` pattern: the characters Python counts as whitespace. */
  predicate IsSpace(c: char)
  {
    ('\t' <= c <= '\r') || ('\U{1C}' <= c <= ' ') || c == '\U{85}' || c == '\U{A0}'
    || c == '\U{1680}' || ('\U{2000}' <= c <= '\U{200A}') || c == '\U{2028}' || c == '\U{2029}'
    || c == '\U{202F}' || c == '\U{205F}' || c == '\U{3000}'
  }

  /** `["\']` */
  predicate IsQuote(c: char)
  {
    c == '"' || c == '\''
  }

  /** `[a-zA-Z-]` */
  predicate IsLangChar(c: char)
  {
    ('a' <= c <= 'z') || ('A' <= c <= 'Z') || c == '-'
  }

  /** `[\w-]`, with `\w` restricted to ASCII letters, digits and `_`. */
  predicate IsNameChar(c: char)
  {
    ('a' <= c <= 'z') || ('A' <= c <= 'Z') || ('0' <= c <= '9') || c == '_' || c == '-'
  }

  predicate All(s: string, p: char -> bool)
  {
    forall i :: 0 <= i < |s| ==> p(s[i])
  }

  /** The length of the longest prefix of `s` in the class `p`; what it
      measures is stated by `SpanRun`. */
  function Span(s: string, p: char -> bool): (n: nat)
    ensures n <= |s|
  {
    if s == [] || !p(s[0]) then 0 else 1 + Span(s[1..], p)
  }

  /** The length of the longest suffix of `s` in the class `p`; what it
      measures is stated by `TrailingSpanRun`. */
  function TrailingSpan(s: string, p: char -> bool): (n: nat)
    ensures n <= |s|
  {
    if s == [] || !p(s[|s| - 1]) then 0 else 1 + TrailingSpan(s[..|s| - 1], p)
  }

  lemma {:induction false} SpanRun(s: string, p: char -> bool)
    ensures All(s[..Span(s, p)], p)
    ensures Span(s, p) < |s| ==> !p(s[Span(s, p)])
    decreases |s|
  {
    if s != [] && p(s[0]) {
      SpanRun(s[1..], p);
      assert s[..Span(s, p)] == [s[0]] + s[1..][..Span(s[1..], p)];
    }
  }

  lemma {:induction false} TrailingSpanRun(s: string, p: char -> bool)
    ensures All(s[|s| - TrailingSpan(s, p)..], p)
    ensures TrailingSpan(s, p) < |s| ==> !p(s[|s| - TrailingSpan(s, p) - 1])
    decreases |s|
  {
    if s != [] && p(s[|s| - 1]) {
      var s' := s[..|s| - 1];
      TrailingSpanRun(s', p);
      assert s[|s| - TrailingSpan(s, p)..] == s'[|s'| - TrailingSpan(s', p)..] + [s[|s| - 1]];
    }
  }

  lemma {:induction false} SpanOf(x: string, y: string, p: char -> bool)
    requires All(x, p) && (y == [] || !p(y[0]))
    ensures Span(x + y, p) == |x|
    decreases |x|
  {
    if x == [] {
      assert x + y == y;
    } else {
      SpanOf(x[1..], y, p);
      assert (x + y)[1..] == x[1..] + y;
    }
  }

  lemma {:induction false} TrailingSpanOf(x: string, y: string, p: char -> bool)
    requires All(y, p) && (x == [] || !p(x[|x| - 1]))
    ensures TrailingSpan(x + y, p) == |y|
    decreases |y|
  {
    if y == [] {
      assert x + y == x;
    } else {
      var y' := y[..|y| - 1];
      TrailingSpanOf(x, y', p);
      assert (x + y)[..|x + y| - 1] == x + y';
    }
  }

  lemma SplitAt(s: string, k: nat)
    requires k <= |s|
    ensures s == s[..k] + s[k..]
  {
  }

  // ---------------------------------------------------------------------------
  // Fixed stretches of the pattern with one-character holes

  /** A piece of a fixed stretch: literal text, `["\']`, or the unescaped `.`
      of `1.0` (any character, the pattern being DOTALL). */
  datatype Part = Text(s: string) | QuoteSlot | AnySlot

  /** A fixed stretch of the pattern, piece by piece. */
  datatype Stretch = Done | Then(part: Part, next: Stretch)

  /** `holes` gives one character for each slot, a quote where the slot
      asks for one. */
  predicate Fits(tpl: Stretch, holes: seq<char>)
  {
    match tpl
    case Done => holes == []
    case Then(Text(_), next) => Fits(next, holes)
    case Then(slot, next) => |holes| > 0 && SlotTakes(slot, holes[0]) && Fits(next, holes[1..])
  }

  /** Whether a slot accepts a character. */
  predicate SlotTakes(slot: Part, c: char)
  {
    slot.QuoteSlot? ==> IsQuote(c)
  }

  function Fill(tpl: Stretch, holes: seq<char>): string
    requires Fits(tpl, holes)
  {
    match tpl
    case Done => ""
    case Then(Text(lit), next) => lit + Fill(next, holes)
    case Then(_, next) => [holes[0]] + Fill(next, holes[1..])
  }

  /** Matches a fixed stretch at the start of `s`: the characters taken by
      the slots and the rest of `s`. */
  function MatchTemplate(s: string, tpl: Stretch): Option<(seq<char>, string)>
  {
    match tpl
    case Done => Some(([], s))
    case Then(Text(lit), next) => if StartsWith(s, lit) then MatchTemplate(s[|lit|..], next) else None
    case Then(slot, next) =>
      if s == [] || !SlotTakes(slot, s[0]) then None
      else match MatchTemplate(s[1..], next)
        case None => None
        case Some(m) => Some(([s[0]] + m.0, m.1))
  }

  lemma ConcatParts(a: string, b: string)
    ensures (a + b)[..|a|] == a && (a + b)[|a|..] == b
  {
  }

  lemma {:induction false} MatchTemplateFill(tpl: Stretch, holes: seq<char>, rest: string)
    requires Fits(tpl, holes)
    ensures MatchTemplate(Fill(tpl, holes) + rest, tpl) == Some((holes, rest))
  {
    match tpl
    case Done =>
      assert Fill(tpl, holes) + rest == rest;
    case Then(Text(lit), next) =>
      MatchTemplateFill(next, holes, rest);
      ConcatParts(lit, Fill(next, holes) + rest);
      assert Fill(tpl, holes) + rest == lit + (Fill(next, holes) + rest);
    case Then(_, next) =>
      MatchTemplateFill(next, holes[1..], rest);
      ConcatParts([holes[0]], Fill(next, holes[1..]) + rest);
      assert Fill(tpl, holes) + rest == [holes[0]] + (Fill(next, holes[1..]) + rest);
      assert [holes[0]] + holes[1..] == holes;
  }

  lemma {:induction false} MatchTemplateSound(s: string, tpl: Stretch)
    requires MatchTemplate(s, tpl).Some?
    ensures var m := MatchTemplate(s, tpl).value;
      Fits(tpl, m.0) && s == Fill(tpl, m.0) + m.1
  {
    match tpl
    case Done =>
    case Then(Text(lit), next) =>
      MatchTemplateSound(s[|lit|..], next);
      SplitAt(s, |lit|);
    case Then(_, next) =>
      MatchTemplateSound(s[1..], next);
      SlotSound(s, tpl);
  }

  /** One step of `MatchTemplateSound` over a slot. */
  lemma SlotSound(s: string, tpl: Stretch)
    requires tpl.Then? && !tpl.part.Text?
    requires MatchTemplate(s, tpl).Some?
    requires var m' := MatchTemplate(s[1..], tpl.next);
      m'.Some? && Fits(tpl.next, m'.value.0) && s[1..] == Fill(tpl.next, m'.value.0) + m'.value.1
    ensures var m := MatchTemplate(s, tpl).value;
      Fits(tpl, m.0) && s == Fill(tpl, m.0) + m.1
  {
    var c := s[0];
    var m' := MatchTemplate(s[1..], tpl.next).value;
    var holes := [c] + m'.0;
    assert MatchTemplate(s, tpl).value == (holes, m'.1);
    assert Fits(tpl, holes) && Fill(tpl, holes) == [c] + Fill(tpl.next, m'.0) by {
      assert holes[0] == c && holes[1..] == m'.0;
    }
    assert s == [c] + s[1..];
    ConsJoin(c, Fill(tpl.next, m'.0), m'.1);
  }

  lemma ConsJoin(c: char, a: string, b: string)
    ensures [c] + (a + b) == ([c] + a) + b
  {
  }

  /** `<speak version=Q1.0Q xmlns=QhttpQ xml:lang=Q` */
  function SpeakOpen(): Stretch
  {
    Then(Text("<speak version="), Then(QuoteSlot, Then(Text("1"), Then(AnySlot, Then(Text("0"),
    Then(QuoteSlot, Then(Text(" xmlns="), Then(QuoteSlot, Then(Text(SynthesisNamespace),
    Then(QuoteSlot, Then(Text(" xml:lang="), Then(QuoteSlot, Done))))))))))))
  }

  /** `Q>` closing an attribute and its tag. */
  function QuoteClose(): Stretch
  {
    Then(QuoteSlot, Then(Text(">"), Done))
  }

  /** `<voice name=Q` */
  function VoiceOpen(): Stretch
  {
    Then(Text("<voice name="), Then(QuoteSlot, Done))
  }

  // ---------------------------------------------------------------------------
  // The pattern as a grammar

  /** The parts of a text the SSML pattern leaves free: the whitespace runs,
      the characters taken by quote slots and by the `.` of `1.0`, the
      language, the voice name, and the body between the voice tags. */
  datatype Shell = Shell(
    lead: string, speakHoles: seq<char>, lang: string, langClose: seq<char>, gap: string,
    nameOpen: seq<char>, name: string, nameClose: seq<char>, body: string, mid: string, trail: string)

  predicate ValidShell(sh: Shell)
  {
    All(sh.lead, IsSpace) && All(sh.gap, IsSpace) && All(sh.mid, IsSpace) && All(sh.trail, IsSpace)
    && Fits(SpeakOpen(), sh.speakHoles) && Fits(QuoteClose(), sh.langClose)
    && Fits(VoiceOpen(), sh.nameOpen) && Fits(QuoteClose(), sh.nameClose)
    && |sh.lang| > 0 && All(sh.lang, IsLangChar)
    && |sh.name| > 0 && All(sh.name, IsNameChar)
  }

  function Tail(body: string, mid: string, trail: string): string
  {
    body + ("</voice>" + (mid + ("</speak>" + trail)))
  }

  /** The text a shell stands for: what the pattern matches. */
  function Render(sh: Shell): string
    requires ValidShell(sh)
  {
    sh.lead + (Fill(SpeakOpen(), sh.speakHoles) + (sh.lang + (Fill(QuoteClose(), sh.langClose)
    + (sh.gap + (Fill(VoiceOpen(), sh.nameOpen) + (sh.name + (Fill(QuoteClose(), sh.nameClose)
    + Tail(sh.body, sh.mid, sh.trail))))))))
  }

  predicate EndsWith(s: string, suffix: string)
  {
    |suffix| <= |s| && s[|s| - |suffix|..] == suffix
  }

  /** `.*</voice>\s*</speak>\s*$`: the text must end, up to whitespace, in
      `</speak>`, preceded up to whitespace by `</voice>`; the rest is the
      body. */
  function SplitTail(r: string): Option<(string, string, string)>
  {
    var nt := TrailingSpan(r, IsSpace);
    var r1 := r[..|r| - nt];
    if !EndsWith(r1, "</speak>") then None
    else
      var r2 := r1[..|r1| - 8];
      var nm := TrailingSpan(r2, IsSpace);
      var r3 := r2[..|r2| - nm];
      if !EndsWith(r3, "</voice>") then None
      else Some((r3[..|r3| - 8], r2[|r2| - nm..], r[|r| - nt..]))
  }

  lemma SplitTailSound(r: string)
    requires SplitTail(r).Some?
    ensures var t := SplitTail(r).value;
      All(t.1, IsSpace) && All(t.2, IsSpace) && r == Tail(t.0, t.1, t.2)
  {
    SplitTailJoins(r);
    SplitTailSpaces(r);
  }

  lemma SplitTailJoins(r: string)
    requires SplitTail(r).Some?
    ensures var t := SplitTail(r).value; r == Tail(t.0, t.1, t.2)
  {
    var nt := TrailingSpan(r, IsSpace);
    var r1 := r[..|r| - nt];
    var r2 := r1[..|r1| - 8];
    var nm := TrailingSpan(r2, IsSpace);
    var r3 := r2[..|r2| - nm];
    var body, mid, trail := r3[..|r3| - 8], r2[|r2| - nm..], r[|r| - nt..];
    assert SplitTail(r).value == (body, mid, trail);
    assert r3 == body + "</voice>" by {
      SplitAt(r3, |r3| - 8);
    }
    assert r2 == r3 + mid by {
      SplitAt(r2, |r2| - nm);
    }
    assert r1 == r2 + "</speak>" by {
      SplitAt(r1, |r1| - 8);
    }
    assert r == r1 + trail by {
      SplitAt(r, |r| - nt);
    }
    Regroup(body, "</voice>", mid, "</speak>", trail);
  }

  lemma Regroup(a: string, b: string, c: string, d: string, e: string)
    ensures (((a + b) + c) + d) + e == a + (b + (c + (d + e)))
  {
  }

  lemma SplitTailSpaces(r: string)
    requires SplitTail(r).Some?
    ensures var t := SplitTail(r).value; All(t.1, IsSpace) && All(t.2, IsSpace)
  {
    var nt := TrailingSpan(r, IsSpace);
    var r1 := r[..|r| - nt];
    var r2 := r1[..|r1| - 8];
    TrailingSpanRun(r, IsSpace);
    TrailingSpanRun(r2, IsSpace);
  }

  lemma SplitTailComplete(body: string, mid: string, trail: string)
    requires All(mid, IsSpace) && All(trail, IsSpace)
    ensures SplitTail(Tail(body, mid, trail)) == Some((body, mid, trail))
  {
    var r := Tail(body, mid, trail);
    var x2 := body + "</voice>";
    var x1 := x2 + mid + "</speak>";
    assert r == x1 + trail;
    assert TrailingSpan(r, IsSpace) == |trail| by {
      TrailingSpanOf(x1, trail, IsSpace);
    }
    var r1 := r[..|r| - |trail|];
    assert r1 == x1;
    var r2 := r1[..|r1| - 8];
    assert r2 == x2 + mid;
    assert TrailingSpan(r2, IsSpace) == |mid| by {
      TrailingSpanOf(x2, mid, IsSpace);
    }
    assert r2[..|r2| - |mid|] == x2;
    assert r[|r| - |trail|..] == trail;
    assert r2[|r2| - |mid|..] == mid;
  }

  /** `ssml_pattern.match(text)`, returning the parts it matched. */
  function ParseShell(t: string): (r: Option<Shell>)
    ensures r.Some? ==> |r.value.lang| > 0 && |r.value.name| > 0
  {
    var n0 := Span(t, IsSpace);
    var m1 :- MatchTemplate(t[n0..], SpeakOpen());
    var k1 := Span(m1.1, IsLangChar);
    if k1 == 0 then None else
    var m2 :- MatchTemplate(m1.1[k1..], QuoteClose());
    var g := Span(m2.1, IsSpace);
    var m3 :- MatchTemplate(m2.1[g..], VoiceOpen());
    var k2 := Span(m3.1, IsNameChar);
    if k2 == 0 then None else
    var m4 :- MatchTemplate(m3.1[k2..], QuoteClose());
    var tail :- SplitTail(m4.1);
    Some(Shell(t[..n0], m1.0, m1.1[..k1], m2.0, m2.1[..g], m3.0, m3.1[..k2], m4.0, tail.0, tail.1, tail.2))
  }

  predicate Matches(t: string)
  {
    ParseShell(t).Some?
  }

  /** Whatever the pattern accepts is a valid shell rendered back exactly. */
  lemma ParseShellSound(t: string)
    requires Matches(t)
    ensures ValidShell(ParseShell(t).value) && Render(ParseShell(t).value) == t
  {
    var n0 := Span(t, IsSpace);
    var r0 := t[n0..];
    var m1 := MatchTemplate(r0, SpeakOpen()).value;
    var k1 := Span(m1.1, IsLangChar);
    var r1 := m1.1[k1..];
    var m2 := MatchTemplate(r1, QuoteClose()).value;
    var g := Span(m2.1, IsSpace);
    var r2 := m2.1[g..];
    var m3 := MatchTemplate(r2, VoiceOpen()).value;
    var k2 := Span(m3.1, IsNameChar);
    var r3 := m3.1[k2..];
    var m4 := MatchTemplate(r3, QuoteClose()).value;
    var sh := ParseShell(t).value;
    assert sh.body == SplitTail(m4.1).value.0;
    assert All(sh.lead, IsSpace) by {
      SpanRun(t, IsSpace);
    }
    assert All(sh.lang, IsLangChar) by {
      SpanRun(m1.1, IsLangChar);
    }
    assert All(sh.gap, IsSpace) by {
      SpanRun(m2.1, IsSpace);
    }
    assert All(sh.name, IsNameChar) by {
      SpanRun(m3.1, IsNameChar);
    }
    SplitTailSound(m4.1);
    MatchTemplateSound(r0, SpeakOpen());
    MatchTemplateSound(r1, QuoteClose());
    MatchTemplateSound(r2, VoiceOpen());
    MatchTemplateSound(r3, QuoteClose());
    assert m4.1 == Tail(sh.body, sh.mid, sh.trail);
    SplitAt(m3.1, k2);
    SplitAt(m2.1, g);
    SplitAt(m1.1, k1);
    SplitAt(t, n0);
  }

  /** Every valid shell is accepted, and parsing gives back its parts: any
      whitespace around and between the tags, either quote character in
      each attribute independently, any character between `1` and `0`, and
      any body. */
  lemma ParseShellComplete(sh: Shell)
    requires ValidShell(sh)
    ensures ParseShell(Render(sh)) == Some(sh)
  {
    var tail := Tail(sh.body, sh.mid, sh.trail);
    var r3 := Fill(QuoteClose(), sh.nameClose) + tail;
    var s3 := sh.name + r3;
    var r2 := Fill(VoiceOpen(), sh.nameOpen) + s3;
    var s2 := sh.gap + r2;
    var r1 := Fill(QuoteClose(), sh.langClose) + s2;
    var s1 := sh.lang + r1;
    var r0 := Fill(SpeakOpen(), sh.speakHoles) + s1;
    var t := sh.lead + r0;
    assert t == Render(sh);
    OpeningsStartWithBracket(sh, s1, s2, s3, tail);
    SpanStep(sh.lead, r0, IsSpace);
    MatchTemplateFill(SpeakOpen(), sh.speakHoles, s1);
    SpanStep(sh.lang, r1, IsLangChar);
    MatchTemplateFill(QuoteClose(), sh.langClose, s2);
    SpanStep(sh.gap, r2, IsSpace);
    MatchTemplateFill(VoiceOpen(), sh.nameOpen, s3);
    SpanStep(sh.name, r3, IsNameChar);
    MatchTemplateFill(QuoteClose(), sh.nameClose, tail);
    SplitTailComplete(sh.body, sh.mid, sh.trail);
  }

  /** The pieces that follow each free run of a shell start with a
      character outside that run's class. */
  lemma OpeningsStartWithBracket(sh: Shell, s1: string, s2: string, s3: string, tail: string)
    requires ValidShell(sh)
    ensures var r0 := Fill(SpeakOpen(), sh.speakHoles) + s1; r0 != [] && !IsSpace(r0[0])
    ensures var r1 := Fill(QuoteClose(), sh.langClose) + s2; r1 != [] && !IsLangChar(r1[0])
    ensures var r2 := Fill(VoiceOpen(), sh.nameOpen) + s3; r2 != [] && !IsSpace(r2[0])
    ensures var r3 := Fill(QuoteClose(), sh.nameClose) + tail; r3 != [] && !IsNameChar(r3[0])
  {
    assert Fill(SpeakOpen(), sh.speakHoles)[0] == '<';
    assert Fill(VoiceOpen(), sh.nameOpen)[0] == '<';
  }

  /** Splitting a class run off the front of a string. */
  lemma SpanStep(x: string, y: string, p: char -> bool)
    requires All(x, p) && (y == [] || !p(y[0]))
    ensures Span(x + y, p) == |x| && (x + y)[..|x|] == x && (x + y)[|x|..] == y
  {
    SpanOf(x, y, p);
  }

  // ---------------------------------------------------------------------------
  // convert_to_ssml and synthesize_speech

  /** The shell `convert_to_ssml` puts around text that lacks one: the
      `<speak>` opening with version 1.0, the synthesis namespace and
      `en-US`, then the `<voice>` element naming the voice, all in single
      quotes; the text is embedded as it is, without escaping. It is grouped
      the way the pattern reads it. */
  function Wrap(voiceName: string, text: string): (r: string)
    ensures |r| >= |text| + 16 && r[|r| - |text| - 16..] == text + ("</voice>" + "</speak>")
  {
    var speakOpen := "<speak version=" + ("'1.0'" + (" xmlns=" + ("'" + (SynthesisNamespace + ("'" + (" xml:lang=" + "'"))))));
    speakOpen + ("en-US" + ("'>" + ("<voice name='" + (voiceName + ("'>" + (text + ("</voice>" + "</speak>")))))))
  }

  /** `convert_to_ssml`: text the pattern accepts is returned as it is;
      any other text becomes the body of a shell naming the voice, which the
      pattern then recognises. */
  function ConvertToSsml(voiceName: string, text: string): (r: string)
    ensures Matches(text) ==> r == text
    ensures !Matches(text) ==> r == Wrap(voiceName, text)
    ensures !Matches(text) && |voiceName| > 0 && All(voiceName, IsNameChar) ==>
              ParseShell(r) == Some(WrapShell(voiceName, text))
  {
    if Matches(text) then text
    else
      WrapParses(voiceName, text);
      Wrap(voiceName, text)
  }

  /** The wrapper's output parses back to the wrapper's shell. */
  lemma WrapParses(voiceName: string, text: string)
    ensures |voiceName| > 0 && All(voiceName, IsNameChar) ==>
              ParseShell(Wrap(voiceName, text)) == Some(WrapShell(voiceName, text))
  {
    if |voiceName| > 0 && All(voiceName, IsNameChar) {
      WrapIsShell(voiceName, text);
      ParseShellComplete(WrapShell(voiceName, text));
    }
  }

  /** The shell the wrapper produces: single quotes, `en-US`, no extra
      whitespace, the text as body. */
  function WrapShell(voiceName: string, text: string): Shell
  {
    Shell("", "'.''''", "en-US", "'", "", "'", voiceName, "'", text, "", "")
  }

  /** Filling a stretch that starts with a slot. */
  lemma FillSlot(slot: Part, c: char, next: Stretch, holes: seq<char>)
    requires !slot.Text? && Fits(next, holes) && SlotTakes(slot, c)
    ensures Fits(Then(slot, next), [c] + holes) && Fill(Then(slot, next), [c] + holes) == [c] + Fill(next, holes)
  {
    assert ([c] + holes)[1..] == holes;
  }

  /** The attributes after `version` filled with single quotes. */
  lemma WrapAttributes()
    ensures var t6 := Then(QuoteSlot, Then(Text(" xmlns="), Then(QuoteSlot, Then(Text(SynthesisNamespace),
      Then(QuoteSlot, Then(Text(" xml:lang="), Then(QuoteSlot, Done)))))));
      Fits(t6, "''''") && Fill(t6, "''''") == "'" + (" xmlns=" + ("'" + (SynthesisNamespace + ("'" + (" xml:lang=" + "'")))))
  {
    var t5 := Then(QuoteSlot, Then(Text(" xml:lang="), Then(QuoteSlot, Done)));
    FillSlot(QuoteSlot, '\'', Done, "");
    FillSlot(QuoteSlot, '\'', Then(Text(" xml:lang="), Then(QuoteSlot, Done)), "'");
    FillSlot(QuoteSlot, '\'', Then(Text(SynthesisNamespace), t5), "''");
    FillSlot(QuoteSlot, '\'', Then(Text(" xmlns="), Then(QuoteSlot, Then(Text(SynthesisNamespace), t5))), "'''");
  }

  /** The version number and the attributes after it, filled. */
  lemma WrapVersion()
    ensures var t6 := Then(QuoteSlot, Then(Text(" xmlns="), Then(QuoteSlot, Then(Text(SynthesisNamespace),
      Then(QuoteSlot, Then(Text(" xml:lang="), Then(QuoteSlot, Done)))))));
      var t9 := Then(Text("1"), Then(AnySlot, Then(Text("0"), t6)));
      Fits(t9, ".''''") && Fill(t9, ".''''") == "1" + ("." + ("0" + Fill(t6, "''''")))
  {
    var t6 := Then(QuoteSlot, Then(Text(" xmlns="), Then(QuoteSlot, Then(Text(SynthesisNamespace),
      Then(QuoteSlot, Then(Text(" xml:lang="), Then(QuoteSlot, Done)))))));
    WrapAttributes();
    FillSlot(AnySlot, '.', Then(Text("0"), t6), "''''");
    assert ".''''" == ['.'] + "''''";
  }

  /** `'1.0'` spelled out piece by piece, ahead of any text. */
  lemma VersionJoin(rest: string)
    ensures "'" + ("1" + ("." + ("0" + ("'" + rest)))) == "'1.0'" + rest
  {
    assert "'1.0'" == "'" + ("1" + ("." + ("0" + "'")));
  }

  /** The `<speak>` opening filled with the wrapper's single quotes. */
  lemma WrapSpeakOpen()
    ensures Fits(SpeakOpen(), "'.''''")
    ensures Fill(SpeakOpen(), "'.''''")
              == "<speak version=" + ("'1.0'" + (" xmlns=" + ("'" + (SynthesisNamespace + ("'" + (" xml:lang=" + "'"))))))
  {
    var t6 := Then(QuoteSlot, Then(Text(" xmlns="), Then(QuoteSlot, Then(Text(SynthesisNamespace),
      Then(QuoteSlot, Then(Text(" xml:lang="), Then(QuoteSlot, Done)))))));
    var t9 := Then(Text("1"), Then(AnySlot, Then(Text("0"), t6)));
    var rest := " xmlns=" + ("'" + (SynthesisNamespace + ("'" + (" xml:lang=" + "'"))));
    assert Fits(t9, ".''''") && Fill(t9, ".''''") == "1" + ("." + ("0" + ("'" + rest))) by {
      WrapAttributes();
      WrapVersion();
    }
    assert Fits(SpeakOpen(), "'.''''") && Fill(SpeakOpen(), "'.''''") == "<speak version=" + ("'" + Fill(t9, ".''''")) by {
      FillSlot(QuoteSlot, '\'', t9, ".''''");
      assert "'.''''" == ['\''] + ".''''";
    }
    VersionJoin(rest);
  }

  /** The fixed stretches filled with the wrapper's single quotes. */
  lemma WrapStretches()
    ensures Fits(SpeakOpen(), "'.''''")
    ensures Fill(SpeakOpen(), "'.''''")
              == "<speak version=" + ("'1.0'" + (" xmlns=" + ("'" + (SynthesisNamespace + ("'" + (" xml:lang=" + "'"))))))
    ensures Fits(QuoteClose(), "'") && Fill(QuoteClose(), "'") == "'>"
    ensures Fits(VoiceOpen(), "'") && Fill(VoiceOpen(), "'") == "<voice name='"
  {
    WrapSpeakOpen();
    FillSlot(QuoteSlot, '\'', Then(Text(">"), Done), "");
    FillSlot(QuoteSlot, '\'', Done, "");
  }

  lemma WrapShellValid(voiceName: string, text: string)
    requires |voiceName| > 0 && All(voiceName, IsNameChar)
    ensures ValidShell(WrapShell(voiceName, text))
  {
    assert Fits(SpeakOpen(), "'.''''") && Fits(QuoteClose(), "'") && Fits(VoiceOpen(), "'") by {
      WrapStretches();
    }
    assert All("en-US", IsLangChar) by {
      assert "en-US" == ['e', 'n', '-', 'U', 'S'];
    }
  }

  lemma WrapIsShell(voiceName: string, text: string)
    requires |voiceName| > 0 && All(voiceName, IsNameChar)
    ensures ValidShell(WrapShell(voiceName, text)) && Render(WrapShell(voiceName, text)) == Wrap(voiceName, text)
  {
    WrapShellValid(voiceName, text);
    var sh := WrapShell(voiceName, text);
    var speakOpen, close, voiceOpen := Fill(SpeakOpen(), "'.''''"), Fill(QuoteClose(), "'"), Fill(VoiceOpen(), "'");
    assert speakOpen == "<speak version=" + ("'1.0'" + (" xmlns=" + ("'" + (SynthesisNamespace + ("'" + (" xml:lang=" + "'"))))))
      && close == "'>" && voiceOpen == "<voice name='" by {
      WrapStretches();
    }
    RenderPlain(sh, "</voice>", "</speak>");
  }

  /** A shell without the optional whitespace renders as its parts
      back to back. */
  lemma RenderPlain(sh: Shell, voiceClose: string, speakClose: string)
    requires ValidShell(sh) && sh.lead == [] && sh.gap == [] && sh.mid == [] && sh.trail == []
    requires voiceClose == "</voice>" && speakClose == "</speak>"
    ensures Render(sh) == Fill(SpeakOpen(), sh.speakHoles) + (sh.lang + (Fill(QuoteClose(), sh.langClose)
      + (Fill(VoiceOpen(), sh.nameOpen) + (sh.name + (Fill(QuoteClose(), sh.nameClose)
      + (sh.body + (voiceClose + speakClose)))))))
  {
    EmptyJoin(speakClose);
    EmptyJoin(voiceClose + speakClose);
  }

  lemma EmptyJoin(x: string)
    ensures [] + x == x && x + [] == x
  {
  }

  /** Text already in the shell comes back unchanged. */
  lemma ConvertKeepsShell(voiceName: string, text: string)
    requires Matches(text)
    ensures ConvertToSsml(voiceName, text) == text
  {
  }

  /** With a voice name the pattern accepts, converting twice is converting
      once: the wrapper's output is always recognised. */
  lemma ConvertIdempotent(voiceName: string, text: string)
    requires |voiceName| > 0 && All(voiceName, IsNameChar)
    ensures Matches(ConvertToSsml(voiceName, text))
    ensures ConvertToSsml(voiceName, ConvertToSsml(voiceName, text)) == ConvertToSsml(voiceName, text)
  {
  }

  /** The settings `TextToSpeech` reads from the environment (None when unset). */
  datatype TtsEnvironment = TtsEnvironment(voiceName: Option<string>, speechKey: Option<string>, speechRegion: Option<string>)

  /** The part of a `TextToSpeech` object the model keeps: its voice name. */
  datatype TextToSpeech = TextToSpeech(voiceName: string)

  /** A value Python treats as true: set and non-empty. */
  predicate Truthy(s: Option<string>)
  {
    s.Some? && s.value != ""
  }

  /** `TextToSpeech()`: the key and the region must both be set and non-empty. */
  function NewTextToSpeech(env: TtsEnvironment): (r: Result<TextToSpeech, Exception>)
    ensures r.Failure? <==> !Truthy(env.speechKey) || !Truthy(env.speechRegion)
    ensures r.Failure? ==> r.error.kind == EnvironmentError
    ensures r.Success? ==> r.value.voiceName == if env.voiceName.Some? then env.voiceName.value else DefaultVoiceName
  {
    var voiceName := if env.voiceName.Some? then env.voiceName.value else DefaultVoiceName;
    if !Truthy(env.speechKey) || !Truthy(env.speechRegion) then
      Failure(Exception(EnvironmentError, "Environment variables for Azure Speech Service not set"))
    else Success(TextToSpeech(voiceName))
  }

  /** What the speech service reports for one SSML document. */
  datatype SynthesisOutcome =
    | SynthesizingAudioCompleted(audioData: seq<Byte>)
    | Canceled(reason: string)
    | OtherReason
    | ServiceException(message: string)

  const SynthesisErrorPrefix: string := "Exception occurred during speech synthesis: "

  /** `synthesize_speech`: empty text is refused before the service is
      asked; every failure inside the `try`, including the `RuntimeError`s
      raised there, is re-raised as a `RuntimeError` with the prefix. */
  function SynthesizeSpeech(tts: TextToSpeech, text: string, speak: string -> SynthesisOutcome): (r: Result<seq<Byte>, Exception>)
    ensures text == "" ==> r == Failure(Exception(ValueError, "Text cannot be empty"))
    ensures text != "" ==>
              (r.Success? <==> speak(ConvertToSsml(tts.voiceName, text)).SynthesizingAudioCompleted?)
    ensures r.Success? ==> r.value == speak(ConvertToSsml(tts.voiceName, text)).audioData
    ensures text != "" && r.Failure? ==>
              r.error.kind == RuntimeError && StartsWith(r.error.message, SynthesisErrorPrefix)
  {
    if text == "" then Failure(Exception(ValueError, "Text cannot be empty"))
    else
      match speak(ConvertToSsml(tts.voiceName, text))
      case SynthesizingAudioCompleted(audio) => Success(audio)
      case Canceled(reason) =>
        Failure(Exception(RuntimeError, SynthesisErrorPrefix + ("Synthesis canceled: " + reason)))
      case OtherReason => Failure(Exception(RuntimeError, SynthesisErrorPrefix + "Speech synthesis failed"))
      case ServiceException(message) => Failure(Exception(RuntimeError, SynthesisErrorPrefix + message))
  }
}
