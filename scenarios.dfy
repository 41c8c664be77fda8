/**
 * The test cases of test_strbuilder.cpp replayed against the model, with
 * every allocation succeeding: first for arbitrary inputs, then for the
 * inputs the tests use.  Each returns what the test reads back, the text
 * before the terminator (`str_builder_get`) and `str_builder_size`.
 * The last group is not from the tests: the two dotted-quad helpers of
 * strbuilder.c, replayed the same way, and a failed malloc in init.
 */
module Scenarios {
  import opened LibC
  import opened StrBuilder

  /** One append onto a fresh builder reads back unchanged, whatever the chunk. */
  method OneAppend(chunk: nat, s: string) returns (text: string, n: int)
    requires chunk > 0 && NUL !in s
    ensures text == s && n == |s|
  {
    var b := new StrBuilder();
    var _ := b.Init(chunk, true);
    StrlenLiteral(s);
    var _ := b.Append(Ptr(Literal(s)), true);
    n := b.Size();
    text := b.Get()[..n];
    b.Free();
  }

  method AppendOneString() returns (text: string, n: int)
    ensures text == "Hello, World!" && n == 13
  {
    text, n := OneAppend(1024, "Hello, World!");
  }

  /** The long text of the really-long-string test, in pieces. */
  const ReallyLong :=
    "sajdasjdosiadcmaisdcmas98mcd98sa cd98asc" +
    "dhasdcas hcdyu ahugdcawgd78awgd7w ycdwac" +
    "dhwaudh w8ahcd8awodcwaocdoawpcdoaw87hd87" +
    "wahdc78wcdwahdcuwhacdwhaduihawdawucdhwah" +
    "cduiahac"

  method AppendReallyLongString() returns (text: string, n: int)
    ensures text == ReallyLong && n == 168
  {
    text, n := OneAppend(16, ReallyLong);
  }

  /** Two appends onto a fresh builder concatenate, whatever the chunk. */
  method TwoAppends(chunk: nat, first: string, second: string) returns (text: string, n: int)
    requires chunk > 0 && NUL !in first && NUL !in second
    ensures text == first + second && n == |first| + |second|
  {
    var b := new StrBuilder();
    var _ := b.Init(chunk, true);
    StrlenLiteral(first);
    StrlenLiteral(second);
    var _ := b.Append(Ptr(Literal(first)), true);
    assert b.Contents() == first;
    var _ := b.Append(Ptr(Literal(second)), true);
    assert b.Contents() == first + second;
    n := b.Size();
    text := b.Get()[..n];
    b.Free();
  }

  method AppendTwoStrings() returns (text: string, n: int)
    ensures text == "Hello, World!" && n == 13
  {
    text, n := TwoAppends(16, "Hello, ", "World!");
  }

  /** One formatted append onto a fresh builder reads back its rendering. */
  method OneSprintf(chunk: nat, format: string, rendered: string) returns (text: string, n: int)
    requires chunk > 0
    ensures text == rendered && n == |rendered|
  {
    var b := new StrBuilder();
    var _ := b.Init(chunk, true);
    var _ := b.Sprintf(Ptr(Literal(format)), rendered, true);
    n := b.Size();
    text := b.Get()[..n];
    b.Free();
  }

  /** "%d" of 10. */
  method SprintfOneInt() returns (text: string, n: int)
    ensures text == "10" && n == 2
  {
    text, n := OneSprintf(16, "%d", "10");
  }

  /** "%d %d" of 10 and 25. */
  method SprintfTwoInts() returns (text: string, n: int)
    ensures text == "10 25" && n == 5
  {
    text, n := OneSprintf(16, "%d %d", "10 25");
  }

  /** "%d %d %0.2f %s" of 10, 25, 1.53 and "Hello, World!", rendered as the test expects. */
  method SprintfLargeBuffer() returns (text: string, n: int)
    ensures text == "10 25 1.53 Hello, World!" && n == 24
  {
    text, n := OneSprintf(16, "%d %d %0.2f %s", "10 25 1.53 Hello, World!");
  }

  /** Two formatted appends onto a fresh builder concatenate their renderings. */
  method TwoSprintfs(chunk: nat, format: string, first: string, second: string) returns (text: string, n: int)
    requires chunk > 0
    ensures text == first + second && n == |first| + |second|
  {
    var b := new StrBuilder();
    var _ := b.Init(chunk, true);
    var _ := b.Sprintf(Ptr(Literal(format)), first, true);
    assert b.Contents() == first;
    var _ := b.Sprintf(Ptr(Literal(format)), second, true);
    assert b.Contents() == first + second;
    n := b.Size();
    text := b.Get()[..n];
    b.Free();
  }

  /** "%d" of 10, then "%d" of 25. */
  method SprintfTwice() returns (text: string, n: int)
    ensures text == "1025" && n == 4
  {
    text, n := TwoSprintfs(16, "%d", "10", "25");
  }

  /** Two formatted appends and a plain one, in that order, concatenate whatever their lengths. */
  method SprintfSprintfAppend(chunk: nat, format: string, first: string, second: string, third: string)
    returns (text: string, n: int)
    requires chunk > 0 && NUL !in third
    ensures text == first + second + third && n == |first| + |second| + |third|
  {
    var b := new StrBuilder();
    var _ := b.Init(chunk, true);
    var _ := b.Sprintf(Ptr(Literal(format)), first, true);
    assert b.Contents() == first;
    var _ := b.Sprintf(Ptr(Literal(format)), second, true);
    assert b.Contents() == first + second;
    StrlenLiteral(third);
    var _ := b.Append(Ptr(Literal(third)), true);
    assert b.Contents() == first + second + third;
    n := b.Size();
    text := b.Get()[..n];
    b.Free();
  }

  /** The three texts of the lots-of-text test: two for "%s", one appended. */
  const LoremFirst :=
    "Lorem ipsum dolor sit amet, consectetur " +
    "adipiscing elit. Proin auctor viverra ri" +
    "sus, sed aliquam nibh sodales sed. Donec" +
    " eget orci vitae odio elementum vestibul" +
    "um. Nam sit amet tempus neque. Fusce ele" +
    "mentum nunc nec dui elementum fringilla." +
    " Nunc ac viverra mi. Phasellus eget dolo" +
    "r eget libero consequat gravida. Duis se" +
    "d molestie ex, sit amet interdum massa. " +
    "Class aptent taciti sociosqu ad litora t" +
    "orquent per conubia nostra, per inceptos" +
    " himenaeos. Donec ac ex sed massa placer" +
    "at efficitur ut sed nunc. Aliquam eu dol" +
    "or risus. Duis ex metus, porttitor eget " +
    "nisi ut, sagittis bibendum nisi. Quisque" +
    " nec ligula sodales, egestas quam non, m" +
    "ollis mi."

  const LoremSecond :=
    "Aenean commodo turpis et posuere tincidu" +
    "nt. Mauris a sem sed justo imperdiet mat" +
    "tis. Quisque rutrum risus semper diam he" +
    "ndrerit lobortis. Cras purus nisi, fauci" +
    "bus in orci a, egestas aliquam justo. Qu" +
    "isque ex turpis, suscipit faucibus posue" +
    "re quis, pellentesque non lorem. Aliquam" +
    " in dapibus lorem. Curabitur convallis, " +
    "est quis rutrum laoreet, justo orci soll" +
    "icitudin ipsum, vitae mollis urna libero" +
    " vel enim. Curabitur aliquam fringilla e" +
    "leifend."

  const LoremThirdA :=
    "Vivamus sed auctor enim, eu accumsan arc" +
    "u. Donec vitae tellus quis neque aliquam" +
    " iaculis sit amet ac felis. Donec fermen"

  const LoremThirdB :=
    "tum lectus nibh, at interdum eros tincid" +
    "unt pulvinar. Nunc sed quam metus. Sed e" +
    "t finibus mi. Morbi a rutrum odio. Mauri"

  const LoremThirdC :=
    "s dapibus, dui ac mattis rhoncus, nulla " +
    "quam aliquam ex, sed mollis augue dui et" +
    " leo. Nulla facilisi. Nullam tempor iacu"

  const LoremThirdD :=
    "lis nunc, a pulvinar mi aliquam eget. Mo" +
    "rbi tincidunt blandit tellus in aliquet." +
    " Ut vel velit sit amet lorem finibus lac" +
    "inia."

  const LoremThird := LoremThirdA + LoremThirdB + LoremThirdC + LoremThirdD

  // The appended text holds no NUL; checked one part at a time, since the whole text is too long for one proof.
  lemma LoremNulFreeA()
    ensures NUL !in LoremThirdA
  {
  }

  lemma LoremNulFreeB()
    ensures NUL !in LoremThirdB
  {
  }

  lemma LoremNulFreeC()
    ensures NUL !in LoremThirdC
  {
  }

  lemma LoremNulFreeD()
    ensures NUL !in LoremThirdD
  {
  }

  lemma LoremLength()
    ensures |LoremFirst| + |LoremSecond| + |LoremThird| == 1582
  {
  }

  /** The lots-of-text test: `sprintf("%s")` twice, then `append`. */
  method SprintfLots() returns (text: string, n: int)
    ensures text == LoremFirst + LoremSecond + LoremThird && n == 1582
  {
    LoremNulFreeA();
    LoremNulFreeB();
    LoremNulFreeC();
    LoremNulFreeD();
    LoremLength();
    text, n := SprintfSprintfAppend(16, "%s", LoremFirst, LoremSecond, LoremThird);
  }

  /** One append of a string exactly one chunk long: the capacity grows by one chunk. */
  method AppendOneChunk(chunk: nat, s: string) returns (text: string, n: int, capacity: nat)
    requires chunk > 0 && |s| == chunk && NUL !in s
    ensures text == s && n == chunk && capacity == 2 * chunk
  {
    var b := new StrBuilder();
    var _ := b.Init(chunk, true);
    StrlenLiteral(s);
    var _ := b.Append(Ptr(Literal(s)), true);
    capacity := b.size;
    n := b.Size();
    text := b.Get()[..n];
    b.Free();
  }

  method AppendFullChunk() returns (text: string, n: int, capacity: nat)
    ensures text == "1234567890123456" && n == 16 && capacity == 32
  {
    text, n, capacity := AppendOneChunk(16, "1234567890123456");
  }

  /** A bounded append of a longer string keeps the first `limit` bytes. */
  method NAppendLonger(chunk: nat, s: string, limit: nat) returns (text: string, n: int)
    requires chunk > 0 && NUL !in s && limit <= |s|
    ensures text == s[..limit] && n == limit
  {
    var b := new StrBuilder();
    var _ := b.Init(chunk, true);
    var src := Literal(s);
    StrlenLiteral(s);
    StrnlenIsMinStrlen(src, limit);
    var _ := b.NAppend(Ptr(src), limit, true);
    assert src[..limit] == s[..limit];
    n := b.Size();
    text := b.Get()[..n];
    b.Free();
  }

  /** `str_builder_nappend(&cmd, "1234567890", 8)` gives "12345678". */
  method NAppendCutsAtLimit() returns (text: string, n: int)
    ensures text == "12345678" && n == 8
  {
    text, n := NAppendLonger(4, "1234567890", 8);
  }

  /** The big-endian helper onto a fresh builder reads back `BeText(ip)`, whatever the chunk. */
  method AppendIpBeOnce(chunk: nat, ip: bv32) returns (text: string, n: int)
    requires chunk > 0
    ensures text == Ipv4.BeText(ip) && n == |text| && 7 <= n <= 15
  {
    var b := new StrBuilder();
    var _ := b.Init(chunk, true);
    var _ := b.AppendIpBe(ip, true);
    n := b.Size();
    text := b.Get()[..n];
    b.Free();
  }

  /** The big-endian helper on 0x0A141E28 gives "10.20.30.40". */
  method AppendIpExample() returns (text: string, n: int)
    ensures text == "10.20.30.40" && n == 11
  {
    Ipv4.ExampleTexts();
    text, n := AppendIpBeOnce(4, 0x0A14_1E28);
  }

  /** The little-endian helper as written and corrected, each onto a fresh builder. */
  method AppendIpLeOnce(chunk: nat, ip: bv32) returns (asWritten: string, corrected: string)
    requires chunk > 0
    ensures asWritten == Ipv4.LeTextAsWritten(ip) && corrected == Ipv4.LeText(ip)
  {
    var b := new StrBuilder();
    var _ := b.Init(chunk, true);
    var _ := b.AppendIpLe(ip, true);
    asWritten := b.Get()[..b.Size()];
    b.Free();
    var c := new StrBuilder();
    var _ := c.Init(chunk, true);
    var _ := c.AppendIpLeCorrected(ip, true);
    corrected := c.Get()[..c.Size()];
    c.Free();
  }

  /** The little-endian helper on 0x0A141E28 gives "40.30.10.10" as written, "40.30.20.10" corrected. */
  method AppendIpLeExample() returns (asWritten: string, corrected: string)
    ensures asWritten == "40.30.10.10" && corrected == "40.30.20.10"
  {
    Ipv4.ExampleTexts();
    asWritten, corrected := AppendIpLeOnce(4, 0x0A14_1E28);
  }

  /** Once init fails, appends and the size query report -1, and releasing twice is allowed. */
  method FailedInitIsSticky(chunk: nat, s: string) returns (r: int, n: int)
    requires chunk > 0
    ensures r == -1 && n == -1
  {
    var b := new StrBuilder();
    var _ := b.Init(chunk, false);
    r := b.Append(Ptr(Literal(s)), true);
    n := b.Size();
    b.Free();
    b.Free();
  }
}
