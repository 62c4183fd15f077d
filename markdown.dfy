/** Escaping text for the Markdown caption (escape_md). */
module Markdown {

  import opened Wrappers

  /** The characters escape_md puts a backslash in front of, in the order its
      loop visits them. The backslash itself is not among them. */
  const Reserved: string := "_`*[]()#:+-=~|{}.!>"

  predicate IsReserved(c: char) {
    c in Reserved
  }

  /** Each character of s that is in marks gets a backslash in front. */
  function EscapeOnly(s: string, marks: string): string {
    if s == [] then []
    else (if s[0] in marks then ['\\', s[0]] else [s[0]]) + EscapeOnly(s[1..], marks)
  }

  /** The per-character reading of escape_md on a non-empty string. */
  function Escape(s: string): string {
    EscapeOnly(s, Reserved)
  }

  /** escape_md on a value that may be None: "" for None or "". */
  function EscapeText(text: Option<string>): string {
    if text.Some? then Escape(text.value) else ""
  }

  /** str.replace(c, rep) for a one-character pattern: every occurrence of c
      is replaced. */
  function Replace(s: string, c: char, rep: string): (r: string)
  {
    if s == [] then [] else (if s[0] == c then rep else [s[0]]) + Replace(s[1..], c, rep)
  }

  /** escape_md as the source writes it: one str.replace per reserved
      character, in order, each applied to the result of the previous one. */
  method EscapeMd(text: Option<string>) returns (r: string)
    ensures r == EscapeText(text)
  {
    if !Present(text) {
      return "";
    }
    r := text.value;
    assert r == EscapeOnly(text.value, Reserved[..0]) by { NoMarks(text.value); }
    for k := 0 to |Reserved|
      invariant r == EscapeOnly(text.value, Reserved[..k])
    {
      var ch := Reserved[k];
      ReservedDistinct(k);
      ReplaceStep(text.value, Reserved[..k], ch);
      assert Reserved[..k + 1] == Reserved[..k] + [ch];
      r := Replace(r, ch, ['\\', ch]);
    }
    assert Reserved[..|Reserved|] == Reserved;
  }

  // ---------------------------------------------------------------------
  // The replace loop equals the per-character map

  lemma {:induction false} NoMarks(s: string)
    ensures EscapeOnly(s, []) == s
  {
    if s != [] {
      NoMarks(s[1..]);
    }
  }

  lemma ReservedDistinct(k: nat)
    requires k < |Reserved|
    ensures Reserved[k] !in Reserved[..k] && Reserved[k] != '\\'
  {
  }

  lemma {:induction false} ReplaceAppend(a: string, b: string, c: char, rep: string)
    ensures Replace(a + b, c, rep) == Replace(a, c, rep) + Replace(b, c, rep)
  {
    if a == [] {
      assert a + b == b;
    } else {
      assert (a + b)[0] == a[0] && (a + b)[1..] == a[1..] + b;
      ReplaceAppend(a[1..], b, c, rep);
    }
  }

  /** One pass of the loop: replacing the next reserved character c in a
      string whose earlier marks are already escaped escapes c as well.
      This needs c new and no backslash, so that neither the backslashes
      already inserted nor the characters they guard are touched. */
  lemma {:induction false} ReplaceStep(s: string, marks: string, c: char)
    requires c !in marks && c != '\\'
    ensures Replace(EscapeOnly(s, marks), c, ['\\', c]) == EscapeOnly(s, marks + [c])
  {
    if s != [] {
      var head := if s[0] in marks then ['\\', s[0]] else [s[0]];
      ReplaceAppend(head, EscapeOnly(s[1..], marks), c, ['\\', c]);
      ReplaceStep(s[1..], marks, c);
      if s[0] in marks {
        assert Replace(head, c, ['\\', c]) == head;
      }
    }
  }

  // ---------------------------------------------------------------------
  // Properties of the escaping

  /** The number of reserved characters in s. */
  function CountReserved(s: string): nat {
    if s == [] then 0 else (if IsReserved(s[0]) then 1 else 0) + CountReserved(s[1..])
  }

  /** Escaping maps each character on its own: escape(a + b) is
      escape(a) + escape(b). */
  lemma {:induction false} EscapeAppend(a: string, b: string)
    ensures Escape(a + b) == Escape(a) + Escape(b)
  {
    if a == [] {
      assert a + b == b;
    } else {
      assert (a + b)[0] == a[0] && (a + b)[1..] == a[1..] + b;
      EscapeAppend(a[1..], b);
    }
  }

  /** One backslash is added per reserved character, and nothing else. */
  lemma {:induction false} EscapeLength(s: string)
    ensures |Escape(s)| == |s| + CountReserved(s)
  {
    if s != [] {
      EscapeLength(s[1..]);
    }
  }

  /** Escaping keeps every reserved character (and adds only backslashes,
      which are not reserved). */
  lemma {:induction false} EscapeKeepsReserved(s: string)
    ensures CountReserved(Escape(s)) == CountReserved(s)
  {
    if s != [] {
      var head := if IsReserved(s[0]) then ['\\', s[0]] else [s[0]];
      EscapeKeepsReserved(s[1..]);
      CountAppend(head, Escape(s[1..]));
      assert !IsReserved('\\');
      if IsReserved(s[0]) {
        assert head[1..] == [s[0]];
      }
    }
  }

  lemma {:induction false} CountAppend(a: string, b: string)
    ensures CountReserved(a + b) == CountReserved(a) + CountReserved(b)
  {
    if a == [] {
      assert a + b == b;
    } else {
      assert (a + b)[0] == a[0] && (a + b)[1..] == a[1..] + b;
      CountAppend(a[1..], b);
    }
  }

  /** Text without reserved characters is left as it is. */
  lemma {:induction false} EscapePlain(s: string)
    requires CountReserved(s) == 0
    ensures Escape(s) == s
  {
    if s != [] {
      EscapePlain(s[1..]);
    }
  }

  /** escape_md is not idempotent: escaping twice differs from escaping once
      exactly when the text holds a reserved character, because the second
      pass escapes the reserved characters the first one kept. */
  lemma {:induction false} EscapeTwiceDiffers(s: string)
    ensures Escape(Escape(s)) != Escape(s) <==> CountReserved(s) > 0
  {
    EscapeLength(s);
    EscapeLength(Escape(s));
    EscapeKeepsReserved(s);
    if CountReserved(s) == 0 {
      EscapePlain(s);
    }
  }

  /** Removes the backslash in front of each reserved character. */
  function Unescape(s: string): string {
    if |s| >= 2 && s[0] == '\\' && IsReserved(s[1]) then [s[1]] + Unescape(s[2..])
    else if s == [] then []
    else [s[0]] + Unescape(s[1..])
  }

  /** Escaping loses nothing: removing the inserted backslashes gives the
      text back, including backslashes that were in it to begin with. */
  lemma {:induction false} UnescapeEscape(s: string)
    ensures Unescape(Escape(s)) == s
  {
    if s != [] {
      var rest := Escape(s[1..]);
      UnescapeEscape(s[1..]);
      if IsReserved(s[0]) {
        assert Escape(s) == ['\\', s[0]] + rest;
        assert (['\\', s[0]] + rest)[2..] == rest;
      } else {
        assert Escape(s) == [s[0]] + rest;
        assert ([s[0]] + rest)[1..] == rest;
        if s[0] == '\\' && rest != [] {
          assert s[1..] != [];
          NotReservedHead(s[1..]);
        }
      }
    }
  }

  /** An escaped string never starts with a reserved character. */
  lemma NotReservedHead(s: string)
    requires s != []
    ensures !IsReserved(Escape(s)[0])
  {
    assert !IsReserved('\\');
  }

  /** A small instance: the reserved characters are escaped, the backslash
      and the other characters are copied. */
  lemma EscapeExample()
    ensures Escape("a_\\") == "a\\_\\"
  {
    assert 'a' !in Reserved && '_' in Reserved && '\\' !in Reserved;
    assert Escape("\\") == "\\" + Escape("");
    assert Escape("_\\") == "\\_" + Escape("\\");
    assert Escape("a_\\") == "a" + Escape("_\\");
  }
}
