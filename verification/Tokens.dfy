/** What the tokeniser of the plan runner makes of a command line (src/apply_plan.c:36-58), without its loop: the laws
    that determine the words, and what can never get through. */
module Tokens {
  import opened Model
  import opened Render

  const BLANKS: set<char> := {' ', '\t', '\r', '\n'}

  /** A text without blanks is one word, or none if it is empty. */
  lemma SplitWhole(w: string)
    requires forall c :: c in w ==> c !in BLANKS
    ensures Split(w) == if w == "" then [] else [w]
  {
    if w != "" {
      WordLengthIs(w, "");
      assert w + "" == w && w[..|w|] == w && w[|w|..] == "";
    }
  }

  /** A blank separates: the words of the whole are those before it and those after it. With `SplitWhole` this
      determines the words of every text. */
  lemma {:induction false} SplitAtBlank(a: string, blank: char, b: string)
    requires blank in BLANKS
    ensures Split(a + [blank] + b) == Split(a) + Split(b)
    decreases |a|
  {
    var s := a + [blank] + b;
    if |a| == 0 {
      assert s == [blank] + b && s[1..] == b;
    } else if IsDelimiter(a[0]) {
      SplitAtBlank(a[1..], blank, b);
      assert s[1..] == a[1..] + [blank] + b;
    } else {
      var n := WordLength(a);
      FirstWord(a, [blank] + b);
      assert s == a + ([blank] + b);
      assert s[..n] == a[..n] && s[n..] == a[n..] + [blank] + b;
      SplitAtBlank(a[n..], blank, b);
      assert Split(a) == [a[..n]] + Split(a[n..]);
    }
  }

  /** What follows a blank does not change the first word. */
  lemma {:induction false} FirstWord(a: string, rest: string)
    requires |rest| > 0 && IsDelimiter(rest[0])
    ensures WordLength(a + rest) == WordLength(a)
  {
    if |a| > 0 && !IsDelimiter(a[0]) {
      FirstWord(a[1..], rest);
      assert (a + rest)[1..] == a[1..] + rest;
    } else if |a| == 0 {
      assert a + rest == rest;
    } else {
      assert (a + rest)[0] == a[0];
    }
  }

  /** Every character of a text is a blank or in one of its words. */
  lemma {:induction false} SplitLosesNothing(s: string, c: char)
    requires c in s && c !in BLANKS
    ensures exists i :: 0 <= i < |Split(s)| && c in Split(s)[i]
    decreases |s|
  {
    if IsDelimiter(s[0]) {
      assert s == [s[0]] + s[1..];
      SplitLosesNothing(s[1..], c);
      assert Split(s) == Split(s[1..]);
    } else {
      var n := WordLength(s);
      assert s == s[..n] + s[n..];
      if c in s[..n] {
        assert Split(s)[0] == s[..n];
      } else {
        SplitLosesNothing(s[n..], c);
        var i :| 0 <= i < |Split(s[n..])| && c in Split(s[n..])[i];
        assert Split(s)[i + 1] == Split(s[n..])[i];
      }
    }
  }

  /** No command that the runner takes contains a quote, an escape, or any other character with a meaning to a
      shell. */
  lemma NothingForTheShell(command: string, c: char)
    requires Runnable(Split(command)) && c in command
    ensures c in BLANKS || '0' <= c <= '9' || 'A' <= c <= 'Z' || 'a' <= c <= 'z' || c in {'/', '.', '_', '-', ':', '=', '%'}
    ensures c !in {';', '|', '&', '$', '`', '<', '>', '(', ')', '{', '}', '[', ']', '*', '?', '~', '!', '#', '\'', '"', '\\', '\0'}
  {
    if c !in BLANKS {
      SplitLosesNothing(command, c);
      var i :| 0 <= i < |Split(command)| && c in Split(command)[i];
      var word := Split(command)[i];
      assert IsPlanToken(word);
      var k :| 0 <= k < |word| && word[k] == c;
      assert IsPlanChar(c);
    }
  }

  /** For example: an argument vector of three words, whatever blanks are between them; and refused with a
      semicolon in it. */
  method Examples() returns (taken: Option<seq<string>>, refused: Option<seq<string>>)
    ensures taken == Some(["ip", "link", "up"]) && refused == None
  {
    ExampleWords();
    taken := Tokenise("ip\tlink  up\n");
    refused := Tokenise("ip link;reboot");
  }

  lemma ExampleWords()
    ensures Split("ip\tlink  up\n") == ["ip", "link", "up"] && Split("ip link;reboot") == ["ip", "link;reboot"]
    ensures Runnable(["ip", "link", "up"]) && !Runnable(["ip", "link;reboot"])
  {
    hide Split;
    ExampleParts();
    SplitAtBlank("up", '\n', "");
    SplitAtBlank("", ' ', "up\n");
    SplitAtBlank("link", ' ', " up\n");
    SplitAtBlank("ip", '\t', "link  up\n");
    SplitWhole("ip");
    SplitWhole("link");
    SplitWhole("up");
    SplitWhole("");
    SplitAtBlank("ip", ' ', "link;reboot");
    SplitWhole("link;reboot");
    var words := ["ip", "link;reboot"];
    assert !IsPlanChar(words[1][4]);
  }

  lemma ExampleParts()
    ensures "up" + ['\n'] + "" == "up\n" && "" + [' '] + "up\n" == " up\n" && "link" + [' '] + " up\n" == "link  up\n"
    ensures "ip" + ['\t'] + "link  up\n" == "ip\tlink  up\n" && "ip" + [' '] + "link;reboot" == "ip link;reboot"
  {
  }
}
