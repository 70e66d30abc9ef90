/** Identifiers and event types an envelope may carry (protocol/envelope.go). */
module EventNames {
  import opened Decimals

  predicate Lower(c: char) { 'a' <= c <= 'z' }

  /** A word of an event type: a lower-case letter, then lower-case letters and digits. */
  predicate IsWord(w: string) {
    w != "" && Lower(w[0]) && forall c <- w :: Lower(c) || IsDigit(c)
  }

  function SplitDots(s: string): (words: seq<string>)
    ensures words != []
  {
    if s == "" then [""]
    else
      var words, last := SplitDots(s[..|s|-1]), s[|s|-1];
      if last == '.' then words + [""] else words[..|words|-1] + [words[|words|-1] + [last]]
  }

  /** Lower-case words separated by single dots. */
  predicate IsEventType(name: string) {
    var words := SplitDots(name);
    forall k :: 0 <= k < |words| ==> IsWord(words[k])
  }

  /** After a prefix: finished words only, except that the last may still be empty. */
  predicate Readable(words: seq<string>, start: bool)
    requires words != []
  {
    var n := |words| - 1;
    && (forall k :: 0 <= k < n ==> IsWord(words[k]))
    && (if start then words[n] == "" else IsWord(words[n]))
  }

  method ValidEventType(name: string) returns (ok: bool)
    ensures ok <==> IsEventType(name)
  {
    hide SplitDots, IsWord, Readable, IsEventType;
    Ends(name);
    if name == "" { return false; }
    var start := true;
    for i := 0 to |name|
      invariant Readable(SplitDots(name[..i]), start)
    {
      var c := name[i];
      if (start && Lower(c)) || (!start && (Lower(c) || IsDigit(c) || c == '.')) { OneMoreCharacter(name, i, start); }
      if start && Lower(c) {
        start := false;
      } else if !start && (Lower(c) || IsDigit(c)) {
      } else if !start && c == '.' {
        start := true;
      } else {
        BadStaysBad(name, i, start);
        return false;
      }
    }
    return !start;
  }

  lemma Ends(name: string)
    ensures Readable(SplitDots(name[..0]), true)
    ensures forall start: bool :: Readable(SplitDots(name[..|name|]), start) ==> (!start <==> IsEventType(name))
    ensures name == "" ==> !IsEventType(name)
  {
    assert name[..|name|] == name;
    assert name[..0] == "" && SplitDots("") == [""] && !IsWord("");
    var words := SplitDots(name);
    assert words[|words|-1] == "" ==> !IsWord(words[|words|-1]);
  }

  lemma OneMoreCharacter(name: string, i: nat, start: bool)
    requires i < |name| && Readable(SplitDots(name[..i]), start)
    requires (start && Lower(name[i])) || (!start && (Lower(name[i]) || IsDigit(name[i]) || name[i] == '.'))
    ensures Readable(SplitDots(name[..i+1]), !start && name[i] == '.')
  {
    assert name[..i+1][..i] == name[..i];
  }

  /** A word that has gone wrong, or an empty one followed by a dot, is never repaired. */
  ghost predicate Spoiled(words: seq<string>)
    requires words != []
  {
    exists k :: 0 <= k < |words| && !IsWord(words[k]) && (k < |words| - 1 || words[k] != "")
  }

  lemma {:induction false} SpoiledStays(name: string, i: nat, j: nat)
    requires i <= j <= |name| && Spoiled(SplitDots(name[..i]))
    ensures Spoiled(SplitDots(name[..j]))
    decreases j - i
  {
    if i < j {
      SpoiledStays(name, i, j - 1);
      assert name[..j][..j-1] == name[..j-1];
      var before, after := SplitDots(name[..j-1]), SplitDots(name[..j]);
      var k :| 0 <= k < |before| && !IsWord(before[k]) && (k < |before| - 1 || before[k] != "");
      if k < |before| - 1 {
        assert after[k] == before[k];
      } else if name[j-1] == '.' {
        assert after[k] == before[k] && k < |after| - 1;
      } else {
        WordPrefix(before[k], name[j-1]);
        assert after[k] == before[k] + [name[j-1]];
      }
    }
  }

  lemma WordPrefix(w: string, c: char)
    requires w != "" && !IsWord(w)
    ensures !IsWord(w + [c])
  {
    if Lower(w[0]) {
      var d :| d in w && !Lower(d) && !IsDigit(d);
      assert d in w + [c];
    }
  }

  lemma BadStaysBad(name: string, i: nat, start: bool)
    requires i < |name| && Readable(SplitDots(name[..i]), start)
    requires !(start && Lower(name[i])) && !(!start && (Lower(name[i]) || IsDigit(name[i]) || name[i] == '.'))
    ensures !IsEventType(name)
  {
    var before, after := SplitDots(name[..i]), SplitDots(name[..i+1]);
    assert name[..i+1][..i] == name[..i];
    var n := |before| - 1;
    if name[i] == '.' {
      assert after[n] == "" && n < |after| - 1;
    } else {
      assert after[n] == before[n] + [name[i]];
      assert name[i] in after[n];
    }
    assert Spoiled(after);
    SpoiledStays(name, i + 1, |name|);
    assert name[..|name|] == name;
    var all := SplitDots(name);
    var k :| 0 <= k < |all| && !IsWord(all[k]);
  }

  /** An event type is never empty and never breaks a line. */
  lemma EventTypeIsOneLine(name: string)
    requires IsEventType(name)
    ensures name != "" && '\n' !in name && '\r' !in name
  {
    NotInWords(name, '\n');
    NotInWords(name, '\r');
    if name == "" {
      var empty := IsWord(SplitDots(name)[0]);
    }
  }

  lemma {:induction false} NotInWords(name: string, c: char)
    requires c != '.' && forall k :: 0 <= k < |SplitDots(name)| ==> c !in SplitDots(name)[k]
    ensures c !in name
  {
    if name != "" {
      var front, last := name[..|name|-1], name[|name|-1];
      var before, after := SplitDots(front), SplitDots(name);
      forall k | 0 <= k < |before| ensures c !in before[k] {
        assert c !in after[k];
        assert forall d <- before[k] :: d in after[k];
      }
      NotInWords(front, c);
      if last != '.' { assert last in after[|after|-1]; }
      assert name == front + [last];
    }
  }

  const ULID_ALPHABET := "0123456789ABCDEFGHJKMNPQRSTVWXYZ"

  predicate IsId(id: string, kind: char) {
    && |id| == 28 && id[0] == kind && id[1] == '_'
    && '0' <= id[2] <= '7' && forall i :: 3 <= i < 28 ==> id[i] in ULID_ALPHABET
  }

  method ValidId(id: string, kind: char) returns (ok: bool)
    ensures ok <==> IsId(id, kind)
  {
    if |id| != 28 || id[0] != kind || id[1] != '_' { return false; }
    var body := id[2..];
    if body[0] < '0' || body[0] > '7' { return false; }
    for i := 1 to |body|
      invariant forall k :: 3 <= k < 2 + i ==> id[k] in ULID_ALPHABET
    {
      if body[i] !in ULID_ALPHABET { return false; }
    }
    return true;
  }
}
