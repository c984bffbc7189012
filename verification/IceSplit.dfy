/** Splitting a remote session description into credentials and candidates (ice.rs). */
module IceSplit {
  /** `char::is_whitespace`. */
  predicate IsWhitespace(c: char) {
    || '\U{0009}' <= c <= '\U{000D}' || c == ' ' || c == '\U{0085}' || c == '\U{00A0}' || c == '\U{1680}'
    || '\U{2000}' <= c <= '\U{200A}' || c == '\U{2028}' || c == '\U{2029}' || c == '\U{202F}'
    || c == '\U{205F}' || c == '\U{3000}'
  }

  /** The position of the first newline, or the length. */
  function Newline(s: string): (i: nat)
    ensures i <= |s| && '\n' !in s[..i]
    ensures i < |s| ==> s[i] == '\n'
  {
    if s == "" || s[0] == '\n' then 0
    else
      var i := 1 + Newline(s[1..]);
      assert s[..i] == [s[0]] + s[1..][..i - 1];
      i
  }

  function StripReturn(s: string): string {
    if s != "" && s[|s| - 1] == '\r' then s[..|s| - 1] else s
  }

  /** `str::lines`: a newline ends a line, together with a carriage return right before it. */
  function Lines(s: string): seq<string> {
    var i := Newline(s);
    if s == "" then []
    else if i == |s| then [s]
    else [StripReturn(s[..i])] + Lines(s[i + 1..])
  }

  function TrimEnd(s: string): (t: string)
    ensures t <= s && (t == "" || !IsWhitespace(t[|t| - 1]))
    ensures forall i | |t| <= i < |s| :: IsWhitespace(s[i])
  {
    if s != "" && IsWhitespace(s[|s| - 1]) then TrimEnd(s[..|s| - 1]) else s
  }

  /** The lines the split looks at: trimmed at the end, and not empty. */
  function Trimmed(lines: seq<string>): seq<string> {
    if lines == [] then []
    else (if TrimEnd(lines[0]) == "" then [] else [TrimEnd(lines[0])]) + Trimmed(lines[1..])
  }

  datatype Kind = Candidate | EndMarker | Credential

  function KindOf(line: string): Kind {
    if "a=candidate:" <= line then Candidate
    else if "a=end-of-candidates" <= line then EndMarker
    else Credential
  }

  /** The lines of one kind, in order. */
  function OfKind(lines: seq<string>, k: Kind): seq<string> {
    if lines == [] then []
    else (if KindOf(lines[0]) == k then [lines[0]] else []) + OfKind(lines[1..], k)
  }

  lemma {:induction false} OfKindMembers(lines: seq<string>, k: Kind)
    ensures forall l | l in OfKind(lines, k) :: l in lines && KindOf(l) == k
  {
    if lines != [] {
      OfKindMembers(lines[1..], k);
      assert forall l | l in lines[1..] :: l in lines;
      assert lines[0] in lines;
    }
  }

  function Kinds(lines: seq<string>): (r: seq<Kind>)
    ensures |r| == |lines|
  {
    seq(|lines|, i requires 0 <= i < |lines| => KindOf(lines[i]))
  }

  function Render(lines: seq<string>): string {
    if lines == [] then "" else lines[0] + "\r\n" + Render(lines[1..])
  }

  lemma {:induction false} TrimmedAppend(lines: seq<string>, line: string)
    ensures Trimmed(lines + [line]) == Trimmed(lines) + if TrimEnd(line) == "" then [] else [TrimEnd(line)]
  {
    if lines == [] {
      assert lines + [line] == [line];
    } else {
      TrimmedAppend(lines[1..], line);
      assert (lines + [line])[1..] == lines[1..] + [line];
    }
  }

  lemma {:induction false} OfKindAppend(lines: seq<string>, line: string, k: Kind)
    ensures OfKind(lines + [line], k) == OfKind(lines, k) + if KindOf(line) == k then [line] else []
  {
    if lines == [] {
      assert lines + [line] == [line];
    } else {
      OfKindAppend(lines[1..], line, k);
      assert (lines + [line])[1..] == lines[1..] + [line];
    }
  }

  lemma {:induction false} RenderAppend(lines: seq<string>, line: string)
    ensures Render(lines + [line]) == Render(lines) + line + "\r\n"
  {
    if lines == [] {
      assert lines + [line] == [line] && [line][1..] == [];
    } else {
      RenderAppend(lines[1..], line);
      assert (lines + [line])[1..] == lines[1..] + [line];
    }
  }

  method SplitRemoteDescription(sdp: string) returns (credentials: string, candidates: seq<string>)
    ensures credentials == Render(OfKind(Trimmed(Lines(sdp)), Credential))
    ensures candidates == OfKind(Trimmed(Lines(sdp)), Candidate)
  {
    credentials, candidates := "", [];
    var lines := Lines(sdp);
    for i := 0 to |lines|
      invariant credentials == Render(OfKind(Trimmed(lines[..i]), Credential))
      invariant candidates == OfKind(Trimmed(lines[..i]), Candidate)
    {
      var line := TrimEnd(lines[i]);
      NextLine(lines, i);
      if line != "" {
        if "a=candidate:" <= line {
          candidates := candidates + [line];
        } else if "a=end-of-candidates" <= line {
        } else {
          credentials := credentials + line;
          credentials := credentials + "\r\n";
        }
      }
    }
    assert lines[..|lines|] == lines;
  }

  /** What one more line adds to the credentials and to the candidates. */
  lemma NextLine(lines: seq<string>, i: nat)
    requires i < |lines|
    ensures var line := TrimEnd(lines[i]);
            var before, after := Trimmed(lines[..i]), Trimmed(lines[..i + 1]);
            && OfKind(after, Candidate) ==
               OfKind(before, Candidate) + (if line != "" && KindOf(line) == Candidate then [line] else [])
            && Render(OfKind(after, Credential)) ==
               Render(OfKind(before, Credential)) +
               if line != "" && KindOf(line) == Credential then line + "\r\n" else ""
  {
    hide TrimEnd;
    var line := TrimEnd(lines[i]);
    var before := Trimmed(lines[..i]);
    assert lines[..i + 1] == lines[..i] + [lines[i]];
    TrimmedAppend(lines[..i], lines[i]);
    if line == "" {
      assert before + [] == before;
    } else {
      OfKindAppend(before, line, Candidate);
      OfKindAppend(before, line, Credential);
      if KindOf(line) == Credential {
        RenderAppend(OfKind(before, Credential), line);
        assert Render(OfKind(before, Credential)) + line + "\r\n" ==
               Render(OfKind(before, Credential)) + (line + "\r\n");
      } else {
        assert OfKind(before, Credential) + [] == OfKind(before, Credential);
        assert Render(OfKind(before, Credential)) + "" == Render(OfKind(before, Credential));
      }
    }
  }

  //-- Nothing lost, nothing duplicated ------------------------------------------------------------

  /** Dealing the three piles out again in the recorded order. */
  function Merge(kinds: seq<Kind>, credentials: seq<string>, candidates: seq<string>, ends: seq<string>): seq<string> {
    if kinds == [] then credentials + candidates + ends
    else match kinds[0]
      case Credential =>
        if credentials == [] then [] else [credentials[0]] + Merge(kinds[1..], credentials[1..], candidates, ends)
      case Candidate =>
        if candidates == [] then [] else [candidates[0]] + Merge(kinds[1..], credentials, candidates[1..], ends)
      case EndMarker =>
        if ends == [] then [] else [ends[0]] + Merge(kinds[1..], credentials, candidates, ends[1..])
  }

  /** The split is an order-preserving partition: the three piles merge back into the lines, every line once. */
  lemma {:induction false} PartitionMergesBack(lines: seq<string>)
    ensures Merge(Kinds(lines), OfKind(lines, Credential), OfKind(lines, Candidate), OfKind(lines, EndMarker)) == lines
    ensures |OfKind(lines, Credential)| + |OfKind(lines, Candidate)| + |OfKind(lines, EndMarker)| == |lines|
  {
    if lines != [] {
      var first, rest := lines[0], lines[1..];
      PartitionMergesBack(rest);
      assert Kinds(lines)[0] == KindOf(first) && Kinds(lines)[1..] == Kinds(rest);
      assert lines == [first] + rest;
      OfKindCons(first, rest, Credential);
      OfKindCons(first, rest, Candidate);
      OfKindCons(first, rest, EndMarker);
    }
  }

  lemma OfKindCons(first: string, rest: seq<string>, k: Kind)
    ensures OfKind([first] + rest, k) == if KindOf(first) == k then [first] + OfKind(rest, k) else OfKind(rest, k)
    ensures KindOf(first) == k ==> OfKind([first] + rest, k)[1..] == OfKind(rest, k)
  {
    assert ([first] + rest)[1..] == rest;
  }

  //-- Splitting the credentials again -------------------------------------------------------------

  ghost predicate Clean(line: string) {
    line != "" && '\n' !in line && TrimEnd(line) == line
  }

  lemma {:induction false} TrimEndIsTrimmed(s: string)
    ensures TrimEnd(TrimEnd(s)) == TrimEnd(s)
  {
    if s != "" && IsWhitespace(s[|s| - 1]) {
      TrimEndIsTrimmed(s[..|s| - 1]);
    }
  }

  lemma {:induction false} LinesHaveNoNewline(s: string)
    ensures forall l | l in Lines(s) :: '\n' !in l
    decreases |s|
  {
    var i := Newline(s);
    if i < |s| {
      LinesHaveNoNewline(s[i + 1..]);
    } else {
      assert s[..i] == s;
    }
  }

  lemma {:induction false} TrimmedAreClean(lines: seq<string>)
    requires forall l | l in lines :: '\n' !in l
    ensures forall l | l in Trimmed(lines) :: Clean(l)
  {
    if lines != [] {
      TrimmedAreClean(lines[1..]);
      TrimEndIsTrimmed(lines[0]);
      assert lines[0] in lines && forall c | c in TrimEnd(lines[0]) :: c in lines[0];
    }
  }

  lemma {:induction false} NewlineAt(a: string, b: string)
    requires '\n' !in a
    ensures Newline(a + "\n" + b) == |a|
  {
    if a != "" {
      assert a[0] in a && forall c | c in a[1..] :: c in a;
      NewlineAt(a[1..], b);
      assert (a + "\n" + b)[1..] == a[1..] + "\n" + b;
    }
  }

  lemma {:induction false} LinesOfRendered(lines: seq<string>)
    requires forall l | l in lines :: Clean(l)
    ensures Lines(Render(lines)) == lines
  {
    if lines != [] {
      var a, rest := lines[0] + "\r", Render(lines[1..]);
      assert lines[0] in lines && '\n' !in a;
      assert Render(lines) == a + "\n" + rest;
      NewlineAt(a, rest);
      assert (a + "\n" + rest)[..|a|] == a && (a + "\n" + rest)[|a| + 1..] == rest;
      assert StripReturn(a) == lines[0];
      LinesOfRendered(lines[1..]);
      assert [lines[0]] + lines[1..] == lines;
    }
  }

  lemma {:induction false} TrimmedClean(lines: seq<string>)
    requires forall l | l in lines :: Clean(l)
    ensures Trimmed(lines) == lines
  {
    if lines != [] {
      assert Clean(lines[0]);
      TrimmedClean(lines[1..]);
      assert [lines[0]] + lines[1..] == lines;
    }
  }

  lemma {:induction false} OfKindTwice(lines: seq<string>, k: Kind, k': Kind)
    requires forall l | l in lines :: KindOf(l) == k
    ensures OfKind(lines, k') == if k == k' then lines else []
  {
    if lines != [] {
      assert lines[0] in lines;
      OfKindTwice(lines[1..], k, k');
      assert [lines[0]] + lines[1..] == lines;
    }
  }

  /** The produced credentials, split again, are unchanged and hold no candidates. */
  lemma SplittingTwice(sdp: string)
    ensures var credentials := Render(OfKind(Trimmed(Lines(sdp)), Credential));
            && Render(OfKind(Trimmed(Lines(credentials)), Credential)) == credentials
            && OfKind(Trimmed(Lines(credentials)), Candidate) == []
            && OfKind(Trimmed(Lines(credentials)), EndMarker) == []
  {
    var kept := OfKind(Trimmed(Lines(sdp)), Credential);
    OfKindMembers(Trimmed(Lines(sdp)), Credential);
    LinesHaveNoNewline(sdp);
    TrimmedAreClean(Lines(sdp));
    LinesOfRendered(kept);
    TrimmedClean(kept);
    OfKindTwice(kept, Credential, Credential);
    OfKindTwice(kept, Credential, Candidate);
    OfKindTwice(kept, Credential, EndMarker);
  }

  /** Which pile a line is in is decided by how it begins. */
  lemma {:induction false} PilesExactly(lines: seq<string>, l: string)
    ensures l in OfKind(lines, Candidate) <==> l in lines && "a=candidate:" <= l
    ensures l in OfKind(lines, EndMarker) <==> l in lines && "a=end-of-candidates" <= l
    ensures l in OfKind(lines, Credential) <==> l in lines && !("a=candidate:" <= l) && !("a=end-of-candidates" <= l)
  {
    if lines != [] {
      PilesExactly(lines[1..], l);
      assert lines == [lines[0]] + lines[1..];
      assert "a=candidate:"[2] == 'c' && "a=end-of-candidates"[2] == 'e';
    }
  }
}
