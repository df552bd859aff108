/** The profile page's two helpers for an order's status: the display text
    (split on '-', capitalise each word, join with spaces) and the badge
    colour classes. */
module Profile {
  import opened Types

  function UpperChar(c: char): char {
    if 'a' <= c <= 'z' then (c as int - 32) as char else c
  }

  /** `status.split('-')`: the pieces between the dashes, empty ones
      included. No piece holds a dash; joining the pieces with dashes gives
      back the text (`JoinOfSplit`), and splitting undoes joining
      (`SplitJoin`). */
  function Split(s: string): (words: seq<string>)
    ensures |words| >= 1
    ensures forall i :: 0 <= i < |words| ==> '-' !in words[i]
    decreases |s|
  {
    if |s| == 0 then [""]
    else
      var rest := Split(s[1..]);
      if s[0] == '-' then [""] + rest else [[s[0]] + rest[0]] + rest[1..]
  }

  lemma {:induction false} JoinOfSplit(s: string)
    ensures Join(Split(s), '-') == s
    decreases |s|
  {
    if |s| > 0 {
      var rest := Split(s[1..]);
      JoinOfSplit(s[1..]);
      if s[0] == '-' {
        JoinCons("", rest, '-');
        assert Split(s) == [""] + rest;
      } else {
        JoinFront([s[0]], rest[0], rest[1..], '-');
        assert [rest[0]] + rest[1..] == rest;
        assert Split(s) == [[s[0]] + rest[0]] + rest[1..];
      }
    }
  }

  /** Text without a dash in front of the remaining text joins the first
      piece. */
  lemma {:induction false} SplitWordFront(w: string, t: string)
    requires '-' !in w
    ensures Split(w + t) == [w + Split(t)[0]] + Split(t)[1..]
    decreases |w|
  {
    if |w| > 0 {
      assert (w + t)[1..] == w[1..] + t;
      assert w[0] in w;
      assert forall c :: c in w[1..] ==> c in w;
      SplitWordFront(w[1..], t);
      assert [w[0]] + (w[1..] + Split(t)[0]) == w + Split(t)[0];
    } else {
      assert w + t == t && w + Split(t)[0] == Split(t)[0];
      assert [Split(t)[0]] + Split(t)[1..] == Split(t);
    }
  }

  /** Splitting at dashes undoes joining dash-free pieces with dashes. */
  lemma {:induction false} SplitJoin(words: seq<string>)
    requires |words| >= 1
    requires forall i :: 0 <= i < |words| ==> '-' !in words[i]
    ensures Split(Join(words, '-')) == words
    decreases |words|
  {
    var w := words[0];
    if |words| == 1 {
      SplitWordFront(w, "");
      assert w + "" == w;
    } else {
      var rest := words[1..];
      SplitJoin(rest);
      var t := "-" + Join(rest, '-');
      assert t[1..] == Join(rest, '-');
      assert Split(t) == [""] + rest;
      SplitWordFront(w, t);
      assert Join(words, '-') == w + t;
      assert w + "" == w;
      assert [w] + rest == words;
    }
  }

  /** `word.charAt(0).toUpperCase() + word.slice(1)`; the empty word stays
      empty. */
  function Capitalize(word: string): (r: string)
    ensures |r| == |word|
    ensures |word| > 0 ==> r == [UpperChar(word[0])] + word[1..]
  {
    if |word| == 0 then "" else [UpperChar(word[0])] + word[1..]
  }

  /** Capitalising a word that starts with `c` upper-cases `c` alone. */
  lemma CapitalizeCons(c: char, tail: string)
    ensures Capitalize([c] + tail) == [UpperChar(c)] + tail
  {
    assert ([c] + tail)[1..] == tail;
  }

  /** `words.map(capitalize)`: one capitalised word per word
      (`CapitalizeAllMaps`). */
  function CapitalizeAll(words: seq<string>): (r: seq<string>)
    ensures |r| == |words|
    decreases |words|
  {
    if |words| == 0 then [] else [Capitalize(words[0])] + CapitalizeAll(words[1..])
  }

  lemma {:induction false} CapitalizeAllMaps(words: seq<string>)
    ensures forall i :: 0 <= i < |words| ==> CapitalizeAll(words)[i] == Capitalize(words[i])
    decreases |words|
  {
    if |words| > 0 {
      CapitalizeAllMaps(words[1..]);
      CapitalizeAllCons(words[0], words[1..]);
      assert [words[0]] + words[1..] == words;
    }
  }

  lemma CapitalizeAllCons(w: string, words: seq<string>)
    ensures CapitalizeAll([w] + words) == [Capitalize(w)] + CapitalizeAll(words)
  {
    assert ([w] + words)[1..] == words;
  }

  /** `words.join(sep)`: the words in order with `sep` between neighbours.
      `SplitJoin` shows that splitting undoes joining with a dash. */
  function Join(words: seq<string>, sep: char): (r: string)
    ensures |words| > 0 ==> |words[0]| <= |r| && r[..|words[0]|] == words[0]
    ensures |words| > 1 ==> |words[0]| < |r| && r[|words[0]|] == sep
    decreases |words|
  {
    if |words| == 0 then ""
    else if |words| == 1 then words[0]
    else words[0] + [sep] + Join(words[1..], sep)
  }

  /** Reference definition, one character at a time: a dash becomes a space,
      and a character right after the start or a dash is upper-cased. */
  function TitleCase(s: string, atStart: bool): (r: string)
    ensures |r| == |s|
    decreases |s|
  {
    if |s| == 0 then ""
    else if s[0] == '-' then " " + TitleCase(s[1..], true)
    else [if atStart then UpperChar(s[0]) else s[0]] + TitleCase(s[1..], false)
  }

  lemma {:induction false} TitleCaseChars(s: string, atStart: bool)
    ensures forall i :: 0 <= i < |s| && s[i] == '-' ==> TitleCase(s, atStart)[i] == ' '
    ensures forall i :: 0 <= i < |s| && s[i] != '-' ==>
      TitleCase(s, atStart)[i] ==
        if (i == 0 && atStart) || (i > 0 && s[i - 1] == '-') then UpperChar(s[i]) else s[i]
    decreases |s|
  {
    if |s| > 0 {
      var next := s[0] == '-';
      TitleCaseChars(s[1..], next);
      var r, rest := TitleCase(s, atStart), TitleCase(s[1..], next);
      forall i | 1 <= i < |s|
        ensures r[i] == rest[i - 1] && s[i] == s[1..][i - 1]
      {
      }
    }
  }

  lemma JoinCons(w: string, words: seq<string>, sep: char)
    ensures Join([w] + words, sep) == if |words| == 0 then w else w + [sep] + Join(words, sep)
  {
    assert ([w] + words)[1..] == words;
  }

  /** Joining the split pieces, with the first piece capitalised or not,
      agrees with the character-wise definition. */
  lemma {:induction false} JoinSplit(s: string)
    ensures Join(CapitalizeAll(Split(s)), ' ') == TitleCase(s, true)
    ensures Join([Split(s)[0]] + CapitalizeAll(Split(s)[1..]), ' ') == TitleCase(s, false)
    decreases |s|
  {
    if |s| > 0 {
      JoinSplit(s[1..]);
      if s[0] == '-' {
        JoinSplitDash(s);
      } else {
        JoinSplitLetter(s);
      }
    }
  }

  lemma JoinSplitDash(s: string)
    requires |s| > 0 && s[0] == '-'
    requires Join(CapitalizeAll(Split(s[1..])), ' ') == TitleCase(s[1..], true)
    ensures Join(CapitalizeAll(Split(s)), ' ') == TitleCase(s, true)
    ensures Join([Split(s)[0]] + CapitalizeAll(Split(s)[1..]), ' ') == TitleCase(s, false)
  {
    var rest := Split(s[1..]);
    var caps := CapitalizeAll(rest);
    assert Split(s) == [""] + rest;
    assert Split(s)[1..] == rest;
    assert Capitalize("") == "";
    CapitalizeAllCons("", rest);
    JoinCons("", caps, ' ');
    var joined := Join([""] + caps, ' ');
    assert joined == [' '] + Join(caps, ' ');
    assert TitleCase(s, true) == [' '] + TitleCase(s[1..], true);
    assert TitleCase(s, false) == [' '] + TitleCase(s[1..], true);
  }

  lemma JoinSplitLetter(s: string)
    requires |s| > 0 && s[0] != '-'
    requires Join([Split(s[1..])[0]] + CapitalizeAll(Split(s[1..])[1..]), ' ') == TitleCase(s[1..], false)
    ensures Join(CapitalizeAll(Split(s)), ' ') == TitleCase(s, true)
    ensures Join([Split(s)[0]] + CapitalizeAll(Split(s)[1..]), ' ') == TitleCase(s, false)
  {
    var rest := Split(s[1..]);
    var head, tail := rest[0], rest[1..];
    assert Split(s) == [[s[0]] + head] + tail;
    JoinLetter(s[0], head, tail);
    JoinFront([s[0]], head, CapitalizeAll(tail), ' ');
  }

  /** Putting a letter in front of the first word puts it, upper-cased,
      in front of the capitalised joined text. */
  lemma JoinLetter(c: char, head: string, tail: seq<string>)
    ensures Join(CapitalizeAll([[c] + head] + tail), ' ') == [UpperChar(c)] + Join([head] + CapitalizeAll(tail), ' ')
  {
    var first := [c] + head;
    assert Capitalize(first) == [UpperChar(c)] + head;
    CapitalizeAllCons(first, tail);
    JoinFront([UpperChar(c)], head, CapitalizeAll(tail), ' ');
  }

  /** Text put in front of the first word ends up in front of the joined
      text. */
  lemma JoinFront(prefix: string, head: string, words: seq<string>, sep: char)
    ensures Join([prefix + head] + words, sep) == prefix + Join([head] + words, sep)
  {
    JoinCons(prefix + head, words, sep);
    JoinCons(head, words, sep);
    if |words| > 0 {
      var rest := [sep] + Join(words, sep);
      assert (prefix + head) + rest == prefix + (head + rest);
    }
  }

  /** The displayed status: every dash becomes a space, the first letter of
      each dash-separated word is upper-cased, and nothing else changes. */
  function StatusText(status: string): (r: string)
    ensures |r| == |status|
    ensures forall i :: 0 <= i < |status| && status[i] == '-' ==> r[i] == ' '
    ensures forall i :: 0 <= i < |status| && status[i] != '-' ==>
      r[i] == if i == 0 || status[i - 1] == '-' then UpperChar(status[i]) else status[i]
  {
    JoinSplit(status);
    TitleCaseChars(status, true);
    Join(CapitalizeAll(Split(status)), ' ')
  }

  /** A dash-free status is one word, capitalised. */
  lemma WordText(word: string)
    requires '-' !in word
    ensures StatusText(word) == Capitalize(word)
  {
    var r := StatusText(word);
    forall i | 0 <= i < |word|
      ensures r[i] == Capitalize(word)[i]
    {
      assert word[i] in word;
      if i > 0 {
        assert word[i - 1] in word;
      }
    }
  }

  /** Words on either side of a dash are formatted independently and joined
      by a space. */
  lemma DashText(a: string, b: string)
    ensures StatusText(a + "-" + b) == StatusText(a) + " " + StatusText(b)
  {
    var s := a + "-" + b;
    var r, ra, rb := StatusText(s), StatusText(a), StatusText(b);
    forall i | 0 <= i < |s|
      ensures r[i] == (ra + " " + rb)[i]
    {
      if i < |a| {
        assert s[i] == a[i] && (ra + " " + rb)[i] == ra[i];
        if i > 0 {
          assert s[i - 1] == a[i - 1];
        }
      } else if i == |a| {
        assert s[i] == '-' && (ra + " " + rb)[i] == ' ';
      } else {
        var j := i - |a| - 1;
        assert s[i] == b[j] && (ra + " " + rb)[i] == rb[j];
        if j > 0 {
          assert s[i - 1] == b[j - 1];
        } else {
          assert s[i - 1] == '-';
        }
      }
    }
  }

  /** The text shown for "delivered". */
  lemma DeliveredText(status: string)
    requires status == "delivered"
    ensures StatusText(status) == "Delivered"
  {
    WordText(status);
  }

  /** The text shown for "out-for-delivery". */
  lemma OutForDeliveryText(status: string)
    requires status == "out-for-delivery"
    ensures StatusText(status) == "Out For Delivery"
  {
    var first, rest := status[..3], status[4..];
    AroundDash(status, 3);
    calc {
      StatusText(status);
      { DashText(first, rest); }
      StatusText(first) + " " + StatusText(rest);
      { assert first == "out"; ShownWord(first, "Out"); ForDeliveryText(rest); }
      "Out" + " " + "For Delivery";
      { SpacedWords("Out", "For Delivery", "Out For Delivery"); }
      "Out For Delivery";
    }
  }

  lemma ForDeliveryText(status: string)
    requires status == "for-delivery"
    ensures StatusText(status) == "For Delivery"
  {
    var first, rest := status[..3], status[4..];
    AroundDash(status, 3);
    calc {
      StatusText(status);
      { DashText(first, rest); }
      StatusText(first) + " " + StatusText(rest);
      { assert first == "for" && rest == "delivery"; ShownWord(first, "For"); ShownWord(rest, "Delivery"); }
      "For" + " " + "Delivery";
      { SpacedWords("For", "Delivery", "For Delivery"); }
      "For Delivery";
    }
  }

  // Helpers for the worked examples above. Each keeps one step on literal
  // strings in a proof context of its own.

  /** Two literal words joined by a space, compared with the literal text. */
  lemma SpacedWords(a: string, b: string, text: string)
    requires (a, b, text) in {("Out", "For Delivery", "Out For Delivery"), ("For", "Delivery", "For Delivery")}
    ensures a + " " + b == text
  {
  }

  /** A text with a dash at `k` is the text before it, the dash, and the
      text after it. */
  lemma AroundDash(s: string, k: int)
    requires 0 <= k < |s| && s[k] == '-'
    ensures s == s[..k] + "-" + s[k + 1..]
  {
  }

  /** The displayed forms of the single words of the two examples. */
  lemma ShownWord(word: string, shown: string)
    requires (word, shown) in {("out", "Out"), ("for", "For"), ("delivery", "Delivery")}
    ensures StatusText(word) == shown
  {
    WordText(word);
  }

  const Success := "bg-success text-success-foreground"
  const Accent := "bg-accent text-accent-foreground"
  const Primary := "bg-primary text-primary-foreground"
  const Destructive := "bg-destructive text-destructive-foreground"
  const Muted := "bg-muted text-muted-foreground"

  /** The badge classes for a status; anything not listed is muted. */
  function StatusColor(status: string): (classes: string)
    ensures classes == Muted <==> status !in {"delivered", "preparing", "out-for-delivery", "failed"}
  {
    match status
    case "delivered" => Success
    case "preparing" => Accent
    case "out-for-delivery" => Primary
    case "failed" => Destructive
    case _ => Muted
  }

  /** Over the six order statuses: four distinct colours, and the muted
      default for pending and confirmed. */
  lemma StatusColors(a: OrderStatus, b: OrderStatus)
    ensures StatusColor(StatusName(a)) == Muted <==> a in {Pending, Confirmed}
    ensures a != b && StatusColor(StatusName(a)) == StatusColor(StatusName(b)) ==>
              a in {Pending, Confirmed} && b in {Pending, Confirmed}
  {
  }
}
