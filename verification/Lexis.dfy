/** What the command line's texts look like: the characters of names, the shapes of options, and the values of each kind. */
module Lexis {
  import IntegerParser
  import opened Ascii
  import opened CommandLine
  import opened Wrappers

  /** The letters and digits of the C locale. */
  lemma AlnumExact(c: char)
    ensures IntegerParser.IsAlnum(c) <==> c in DIGITS || c in LOWER || c in UPPER
  {
    InOrder(DIGITS, '0', c);
    InOrder(LOWER, 'a', c);
    InOrder(UPPER, 'A', c);
  }

  /** At least two characters: a letter or digit, then letters, digits, hyphens and underscores. */
  lemma LongNameExact(s: string)
    ensures IsLongName(s) <==>
      |s| >= 2 && Alnum(s[0]) && forall i :: 1 <= i < |s| ==> Alnum(s[i]) || s[i] == '-' || s[i] == '_'
  {
    forall i | 0 <= i < |s|
      ensures IntegerParser.IsAlnum(s[i]) <==> Alnum(s[i])
    {
      AlnumExact(s[i]);
    }
  }

  // ----- Options -----

  lemma LettersExact(letters: string)
    ensures Letters(letters) <==> letters != "" && forall i :: 0 <= i < |letters| ==> Alnum(letters[i])
  {
    forall i | 0 <= i < |letters|
      ensures IntegerParser.IsAlnum(letters[i]) <==> Alnum(letters[i])
    {
      AlnumExact(letters[i]);
    }
  }

  lemma ShortIs(arg: string, letters: string)
    ensures Classify(arg) == Short(letters) <==> arg == "-" + letters && Letters(letters)
  {
    if Classify(arg) == Short(letters) {
      assert arg == "-" + arg[1..];
    }
    if arg == "-" + letters && Letters(letters) {
      assert arg[1..] == letters && arg[1] == letters[0];
    }
  }

  /** A hyphen and letters or digits is a cluster of short options, and nothing else is. */
  lemma ShortExact(arg: string, letters: string)
    ensures Classify(arg) == Short(letters) <==>
      arg == "-" + letters && letters != "" && forall i :: 0 <= i < |letters| ==> Alnum(letters[i])
  {
    ShortIs(arg, letters);
    LettersExact(letters);
  }

  lemma NoEquals(name: string)
    requires IsLongName(name)
    ensures forall i :: 0 <= i < |name| ==> name[i] != '='
  {
  }

  /** Where the name ends: at the first equals sign, or at the end. */
  lemma FirstEqualsIs(arg: string, i: nat, k: nat)
    requires i <= k <= |arg| && (forall j :: i <= j < k ==> arg[j] != '=') && (k < |arg| ==> arg[k] == '=')
    ensures FirstEquals(arg, i) == k
  {
  }

  /** Two hyphens and a long name is that option without a value, and nothing else is. */
  lemma LongExact(arg: string, name: string)
    ensures Classify(arg) == Long(name, None) <==> arg == "--" + name && IsLongName(name)
  {
    if Classify(arg) == Long(name, None) {
      assert arg == "--" + arg[2..];
    }
    if arg == "--" + name && IsLongName(name) {
      NoEquals(name);
      forall j | 2 <= j < |arg|
        ensures arg[j] != '='
      {
        assert arg[j] == name[j - 2];
      }
      FirstEqualsIs(arg, 2, |arg|);
      assert arg[2..] == name;
    }
  }

  /** With an equals sign and a text on one line, it is the option with that value, and nothing else is. */
  lemma LongValueExact(arg: string, name: string, value: string)
    ensures Classify(arg) == Long(name, Some(value)) <==>
      arg == "--" + name + "=" + value && IsLongName(name) && forall i :: 0 <= i < |value| ==> value[i] != '\n' && value[i] != '\r'
  {
    if Classify(arg) == Long(name, Some(value)) {
      var k := FirstEquals(arg, 2);
      assert arg == "--" + arg[2..k] + "=" + arg[k + 1..];
    }
    if arg == "--" + name + "=" + value && IsLongName(name) {
      NoEquals(name);
      var k := 2 + |name|;
      assert arg[2..k] == name && arg[k] == '=' && arg[k + 1..] == value;
      forall j | 2 <= j < k
        ensures arg[j] != '='
      {
        assert arg[j] == name[j - 2];
      }
      FirstEqualsIs(arg, 2, k);
    }
  }

  // ----- Values -----

  /** Any text is a text; a flag is empty, or true or false by its first letter or in full. */
  lemma FlagExact(text: string)
    ensures Accepts(Text, text)
    ensures Accepts(Flag, text) <==>
      || text == ""
      || ((text[0] == 't' || text[0] == 'T') && (text[1..] == "" || text[1..] == "rue"))
      || ((text[0] == 'f' || text[0] == 'F') && (text[1..] == "" || text[1..] == "alse"))
  {
    HeadTail(text, 't', "");
    HeadTail(text, 'T', "");
    HeadTail(text, 't', "rue");
    HeadTail(text, 'T', "rue");
    HeadTail(text, 'f', "");
    HeadTail(text, 'F', "");
    HeadTail(text, 'f', "alse");
    HeadTail(text, 'F', "alse");
    assert ['t'] + "" == "t" && ['T'] + "" == "T" && ['f'] + "" == "f" && ['F'] + "" == "F";
    assert ['t'] + "rue" == "true" && ['T'] + "rue" == "True" && ['f'] + "alse" == "false" && ['F'] + "alse" == "False";
  }

  lemma HeadTail(text: string, head: char, tail: string)
    ensures text == [head] + tail <==> text != "" && text[0] == head && text[1..] == tail
  {
    if text != "" && text[0] == head && text[1..] == tail { assert text == [text[0]] + text[1..]; }
  }

  /** A text is a number of a type if it means one in range; a wide type also takes what overflows unnoticed. */
  lemma IntegerAccepted(t: IntegerParser.IntType, text: string)
    ensures !IntegerParser.IsWidth(t.bits) ==> !Accepts(Integer(t), text)
    ensures IntegerParser.IsWidth(t.bits) ==>
      var meaning, numeral := IntegerParser.Meaning(text), IntegerParser.Match(text);
      Accepts(Integer(t), text) <==>
        && meaning.Some?
        && (|| IntegerParser.InRange(t, meaning.value)
            || (t.bits > 16 && numeral.Some? && numeral.value.Digits? && IntegerParser.Unnoticed(t, numeral.value)))
  {
    if IntegerParser.IsWidth(t.bits) {
      IntegerParser.ParsedModulo(t, text);
      if t.bits <= 16 {
        if IntegerParser.Parsed(t, text).Success? { IntegerParser.ParsedNarrow(t, text, IntegerParser.Parsed(t, text).value); }
      } else {
        IntegerParser.WideExact(t, text);
      }
    }
  }
}
