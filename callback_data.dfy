/** The data of the Audio / Video buttons: "yt|<mode>|<message id>", the
    filter that admits it to the callback handler, and its decoding. */
module CallbackData {

  import opened Wrappers
  import opened Text

  predicate IsMode(mode: string) {
    mode == "audio" || mode == "video"
  }

  /** f"yt|{mode}|{message_id}" */
  function Build(mode: string, messageId: nat): string {
    "yt|" + mode + "|" + NatToString(messageId)
  }

  /** The filter ^yt\|(?:audio|video)\|\d+$, read left to right: the
      prefix, one of the two modes and its bar, then digits to the end. */
  predicate Accepts(s: string) {
    |s| > 9 && s[..3] == "yt|" && IsMode(s[3..8]) && s[8] == '|' && IsDigits(s[9..])
  }

  /** data = s.split("|"); mode = data[1]; int(data[2]). None stands for
      the IndexError or ValueError raised when the data is not of that form. */
  function Parse(s: string): (r: Option<(string, nat)>)
    ensures Accepts(s) ==> r == Some((s[3..8], DigitsValue(s[9..]))) && IsMode(r.value.0)
  {
    AcceptedFields(s);
    var f := Split(s, '|');
    if |f| < 3 then None
    else
      match ParseNat(f[2])
      case None => None
      case Some(n) => Some((f[1], n))
  }

  /** The fields of an accepted string are exactly the prefix, the mode and
      the digits. */
  lemma AcceptedFields(s: string)
    ensures Accepts(s) ==> Split(s, '|') == ["yt", s[3..8], s[9..]]
  {
    if !Accepts(s) {
      return;
    }
    var mode, digits := s[3..8], s[9..];
    assert s == "yt" + ['|'] + (mode + ['|'] + digits);
    assert '|' !in digits by {
      assert forall k :: 0 <= k < |digits| ==> IsDigit(digits[k]);
    }
    var parts := ["yt", mode, digits];
    ThreeFieldsJoin("yt", mode, digits);
    SplitJoin(parts, '|');
  }

  lemma ThreeFieldsJoin(a: string, b: string, c: string)
    ensures Join([a, b, c], '|') == a + ['|'] + (b + ['|'] + c)
  {
    assert [a, b, c][1..] == [b, c] && [b, c][1..] == [c];
    assert Join([b, c], '|') == b + ['|'] + Join([c], '|');
  }

  /** The filter admits exactly the strings whose bar-separated fields are
      "yt", a mode and a digit string: the handler's int() cannot fail on
      anything the filter lets through. */
  lemma AcceptsIffFields(s: string)
    ensures Accepts(s) <==>
      var f := Split(s, '|');
      |f| == 3 && f[0] == "yt" && IsMode(f[1]) && IsDigits(f[2])
  {
    var f := Split(s, '|');
    if Accepts(s) {
      AcceptedFields(s);
    }
    if |f| == 3 && f[0] == "yt" && IsMode(f[1]) && IsDigits(f[2]) {
      JoinSplit(s, '|');
      assert f == [f[0], f[1], f[2]];
      ThreeFieldsJoin(f[0], f[1], f[2]);
      assert s == "yt" + ['|'] + (f[1] + ['|'] + f[2]);
      assert s[..3] == "yt|" && s[3..8] == f[1] && s[8] == '|' && s[9..] == f[2];
    }
  }

  /** The string a button is built with always names a digit string after
      the mode. */
  lemma BuildShape(mode: string, messageId: nat)
    requires IsMode(mode)
    ensures var s := Build(mode, messageId);
      |s| > 9 && s[..3] == "yt|" && s[3..8] == mode && s[8] == '|' && s[9..] == NatToString(messageId)
  {
    var s := Build(mode, messageId);
    assert s == "yt|" + mode + "|" + NatToString(messageId);
  }

  /** The round trip: the data of a button passes the filter and parses
      back to the same mode and message id. */
  lemma BuildAcceptedAndParsed(mode: string, messageId: nat)
    requires IsMode(mode)
    ensures Accepts(Build(mode, messageId))
    ensures Parse(Build(mode, messageId)) == Some((mode, messageId))
  {
    BuildShape(mode, messageId);
    DigitsValueOfNatToString(messageId);
  }

  /** Data with another mode never reaches the handler: the bar after the
      mode lands inside the mode field when the mode is shorter than five
      characters and inside the digits when it is longer. */
  lemma OtherModesRejected(mode: string, messageId: nat)
    requires !IsMode(mode)
    ensures !Accepts(Build(mode, messageId))
  {
    var s := Build(mode, messageId);
    var bar := 3 + |mode|;
    assert s[bar] == '|';
    if |mode| < 5 {
      if |s| >= 8 {
        assert s[3..8][|mode|] == '|';
      }
    } else if |mode| == 5 {
      assert s[3..8] == mode;
    } else {
      assert s[9..][bar - 9] == '|';
    }
  }

  /** The filter also admits message ids written with leading zeros
      ("yt|audio|007" is looked up as message 7); building the data again
      from what was parsed gives the string back exactly when it has none. */
  lemma RebuildIffCanonical(s: string)
    requires Accepts(s)
    ensures Parse(s).Some?
    ensures Build(Parse(s).value.0, Parse(s).value.1) == s <==> (s[9] != '0' || |s| == 10)
  {
    var mode, digits := s[3..8], s[9..];
    var n := DigitsValue(digits);
    BuildShape(mode, n);
    assert s == "yt|" + mode + "|" + digits;
    if s[9] != '0' || |s| == 10 {
      NatToStringOfDigits(digits);
    }
    if Build(mode, n) == s {
      assert NatToString(n) == digits;
      if s[9] == '0' {
        assert n == 0;
        assert NatToString(0) == "0";
      }
    }
  }
}
