/** The three printing exercises of logicTest/logic.go as pure producers of
    their output: the Fibonacci line, the star pyramid and the hollow
    diamond. Each printed line is a string without its newline. */
module LogicTest {
  import opened Text

  // ---------------------------------------------------------------------
  // fibonacci

  /** The k-th printed term, counting from 0: 1, 1, 2, 3, 5, ... */
  function Fib(k: nat): nat
  {
    if k < 2 then 1 else Fib(k - 1) + Fib(k - 2)
  }

  /** Words separated by single spaces, with no leading or trailing space. */
  function JoinWords(ws: seq<string>): string
  {
    if |ws| == 0 then ""
    else if |ws| == 1 then ws[0]
    else JoinWords(ws[..|ws| - 1]) + " " + ws[|ws| - 1]
  }

  /** Joining reads the same from the front: the first word, a space, and
      the join of the rest (`strings.Join` with a single-space separator). */
  lemma {:induction false} JoinWordsCons(w: string, ws: seq<string>)
    requires |ws| > 0
    ensures JoinWords([w] + ws) == w + " " + JoinWords(ws)
    decreases |ws|
  {
    var all := [w] + ws;
    if |ws| == 1 {
      assert all[..1] == [w];
    } else {
      var init := ws[..|ws| - 1];
      assert all[..|all| - 1] == [w] + init;
      JoinWordsCons(w, init);
    }
  }

  /** The decimal renderings of the first n terms. */
  function FibWords(n: nat): (ws: seq<string>)
    ensures |ws| == n
    ensures forall k :: 0 <= k < n ==> ws[k] == NatToString(Fib(k))
  {
    seq(n, k requires 0 <= k => NatToString(Fib(k)))
  }

  const FibCount: nat := 10

  /** `fibonacci`: the loop keeps the pair (a, b) of consecutive terms and
      prints each `a` followed by a space, except the last. */
  method Fibonacci() returns (out: string)
    ensures out == JoinWords(FibWords(FibCount))
  {
    var n := FibCount;
    var a, b := 1, 1;
    out := "";
    var i := 0;
    while i < n
      invariant 0 <= i <= n
      invariant a == Fib(i) && b == Fib(i + 1)
      invariant i < n ==> out == (if i == 0 then "" else JoinWords(FibWords(i)) + " ")
      invariant i == n ==> out == JoinWords(FibWords(n))
    {
      assert FibWords(i + 1)[..i] == FibWords(i);
      if i < n - 1 {
        out := out + NatToString(a) + " ";
      } else {
        out := out + NatToString(a);
      }
      a, b := b, a + b;
      i := i + 1;
    }
  }

  /** Every term after the first two is the sum of the two before it, and
      the ten printed terms are the familiar ones. */
  lemma FibTerms()
    ensures forall k :: 2 <= k ==> Fib(k) == Fib(k - 1) + Fib(k - 2)
    ensures seq(FibCount, k requires 0 <= k => Fib(k)) == [1, 1, 2, 3, 5, 8, 13, 21, 34, 55]
  {
    FibValues();
  }

  /** The ten terms as printed. */
  const FibText: seq<string> := ["1", "1", "2", "3", "5", "8", "13", "21", "34", "55"]

  /** The rendered terms. */
  lemma FibWordsText()
    ensures FibWords(FibCount) == FibText
  {
    FibValues();
    TwoDigitRendering();
    var ws := FibWords(FibCount);
    assert ws[0] == "1" && ws[1] == "1" && ws[2] == "2" && ws[3] == "3" && ws[4] == "5";
    assert ws[5] == "8" && ws[6] == "13" && ws[7] == "21" && ws[8] == "34" && ws[9] == "55";
  }

  lemma FibValues()
    ensures Fib(0) == 1 && Fib(1) == 1 && Fib(2) == 2 && Fib(3) == 3 && Fib(4) == 5
    ensures Fib(5) == 8 && Fib(6) == 13 && Fib(7) == 21 && Fib(8) == 34 && Fib(9) == 55
  {
    assert Fib(2) == 2 && Fib(3) == 3 && Fib(4) == 5 && Fib(5) == 8;
    assert Fib(6) == 13 && Fib(7) == 21 && Fib(8) == 34;
  }

  lemma TwoDigitRendering()
    ensures NatToString(1) == "1" && NatToString(2) == "2" && NatToString(3) == "3"
    ensures NatToString(5) == "5" && NatToString(8) == "8"
    ensures NatToString(13) == "13" && NatToString(21) == "21"
    ensures NatToString(34) == "34" && NatToString(55) == "55"
  {
  }

  /** Joining one more word appends a space and the word. */
  lemma JoinStep(ws: seq<string>, k: nat)
    requires 2 <= k <= |ws|
    ensures JoinWords(ws[..k]) == JoinWords(ws[..k - 1]) + " " + ws[k - 1]
  {
    assert ws[..k][..k - 1] == ws[..k - 1];
  }

  /** The printed text after the first k terms, one term at a time. */
  lemma JoinFirst2()
    ensures JoinWords(FibText[..2]) == "1 1"
  {
    assert JoinWords(FibText[..1]) == "1";
    JoinStep(FibText, 2);
  }

  lemma JoinFirst3()
    ensures JoinWords(FibText[..3]) == "1 1 2"
  {
    JoinFirst2();
    JoinStep(FibText, 3);
  }

  lemma JoinFirst4()
    ensures JoinWords(FibText[..4]) == "1 1 2 3"
  {
    JoinFirst3();
    JoinStep(FibText, 4);
  }

  lemma JoinFirst5()
    ensures JoinWords(FibText[..5]) == "1 1 2 3 5"
  {
    JoinFirst4();
    JoinStep(FibText, 5);
  }

  lemma JoinFirst6()
    ensures JoinWords(FibText[..6]) == "1 1 2 3 5 8"
  {
    JoinFirst5();
    JoinStep(FibText, 6);
  }

  lemma JoinFirst7()
    ensures JoinWords(FibText[..7]) == "1 1 2 3 5 8 13"
  {
    JoinFirst6();
    JoinStep(FibText, 7);
  }

  lemma JoinFirst8()
    ensures JoinWords(FibText[..8]) == "1 1 2 3 5 8 13 21"
  {
    JoinFirst7();
    JoinStep(FibText, 8);
  }

  lemma JoinFirst9()
    ensures JoinWords(FibText[..9]) == "1 1 2 3 5 8 13 21 34"
  {
    JoinFirst8();
    JoinStep(FibText, 9);
  }

  lemma JoinFirst10()
    ensures JoinWords(FibText[..10]) == "1 1 2 3 5 8 13 21 34 55"
  {
    JoinFirst9();
    JoinStep(FibText, 10);
  }

  /** The exact text printed: ten terms, single spaces, no trailing space. */
  lemma FibonacciText()
    ensures JoinWords(FibWords(FibCount)) == "1 1 2 3 5 8 13 21 34 55"
  {
    FibWordsText();
    JoinFirst10();
    assert FibText[..10] == FibText;
  }

  // ---------------------------------------------------------------------
  // piramidaBintang

  const PyramidHeight: nat := 5
  /** `n/2 + 1`: the widest line. */
  const PyramidMid: nat := PyramidHeight / 2 + 1

  /** Line i (1-based) of `piramidaBintang`, following the source's two
      branches. The result is stated through the line's distance from the
      widest line, the same formula for both halves. */
  function PyramidLine(i: int): (line: string)
    requires 1 <= i <= PyramidHeight
    ensures var d := if i <= PyramidMid then PyramidMid - i else i - PyramidMid;
            line == Repeat(' ', d) + Repeat('*', 2 * (PyramidMid - d) - 1)
  {
    var spaces := if i <= PyramidMid then PyramidMid - i else i - PyramidMid;
    var stars := if i <= PyramidMid then 2 * i - 1 else 2 * (PyramidHeight - i) + 1;
    Repeat(' ', spaces) + Repeat('*', stars)
  }

  function Pyramid(): (lines: seq<string>)
    ensures |lines| == PyramidHeight
    ensures forall k :: 0 <= k < |lines| ==> lines[k] == PyramidLine(k + 1)
  {
    seq(PyramidHeight, k requires 0 <= k < PyramidHeight => PyramidLine(k + 1))
  }

  /** The lower half mirrors the upper: line i equals line 6 - i. */
  lemma PyramidSymmetric(i: int)
    requires 1 <= i <= PyramidHeight
    ensures PyramidLine(i) == PyramidLine(PyramidHeight + 1 - i)
  {
  }

  /** Each line is centred: as many leading spaces as its distance from the
      widest line, and its stars end at the same column on the top half. */
  lemma PyramidPicture()
    ensures Pyramid() == ["  *", " ***", "*****", " ***", "  *"]
  {
    assert PyramidLine(1) == "  *";
    assert PyramidLine(2) == " ***";
    assert PyramidLine(3) == "*****";
    assert PyramidLine(4) == " ***";
    assert PyramidLine(5) == "  *";
  }

  // ---------------------------------------------------------------------
  // polaBintangLOGIC

  const DiamondHeight: nat := 13
  const DiamondWidth: nat := 21
  const DiamondMid: nat := DiamondHeight / 2
  const CenterX: nat := DiamondWidth / 2

  /** The character `polaBintangLOGIC` prints at line i, column j, branch
      for branch. */
  function DiamondCell(i: nat, j: nat): char
    requires i < DiamondHeight && j < DiamondWidth
  {
    if i <= DiamondMid then
      var left, right := CenterX - i, CenterX + i;
      if i == DiamondMid then
        if j < left || j > right then '*'
        else if j == left || j == right then '*'
        else if (j - left) % 2 == 1 then '-'
        else ' '
      else if j < left || j > right then '*'
      else ' '
    else
      var mirror := DiamondHeight - i - 1;
      var left, right := CenterX - mirror, CenterX + mirror;
      if j < left || j > right then '*' else ' '
  }

  function DiamondLine(i: nat): (line: string)
    requires i < DiamondHeight
    ensures |line| == DiamondWidth
    ensures forall j :: 0 <= j < DiamondWidth ==> line[j] == DiamondCell(i, j)
  {
    seq(DiamondWidth, j requires 0 <= j < DiamondWidth => DiamondCell(i, j))
  }

  function Diamond(): (lines: seq<string>)
    ensures |lines| == DiamondHeight
    ensures forall i :: 0 <= i < DiamondHeight ==> lines[i] == DiamondLine(i)
  {
    seq(DiamondHeight, i requires 0 <= i < DiamondHeight => DiamondLine(i))
  }

  /** Half the width of the hollow part of line i. */
  function HalfWidth(i: nat): nat
    requires i < DiamondHeight
  {
    if i <= DiamondMid then i else DiamondHeight - 1 - i
  }

  /** The picture described independently of the loop: stars outside the
      hollow, and on the middle line stars at both edges of the hollow with
      dashes at odd offsets from the left edge. */
  function DiamondPicture(i: nat, j: nat): char
    requires i < DiamondHeight && j < DiamondWidth
  {
    var d := HalfWidth(i);
    if j + d < CenterX || j > CenterX + d then '*'
    else if i == DiamondMid && (j == CenterX - d || j == CenterX + d) then '*'
    else if i == DiamondMid && (j - (CenterX - d)) % 2 == 1 then '-'
    else ' '
  }

  /** The loop prints exactly the picture. */
  lemma DiamondIsPicture(i: nat, j: nat)
    requires i < DiamondHeight && j < DiamondWidth
    ensures DiamondCell(i, j) == DiamondPicture(i, j)
  {
  }

  /** 13 lines of 21 characters, all drawn from star, space and dash. */
  lemma DiamondShape()
    ensures |Diamond()| == DiamondHeight
    ensures forall i :: 0 <= i < DiamondHeight ==> |Diamond()[i]| == DiamondWidth
    ensures forall i, j :: 0 <= i < DiamondHeight && 0 <= j < DiamondWidth ==>
              Diamond()[i][j] in {'*', ' ', '-'}
  {
  }

  /** Dashes appear only on the middle line, at odd offsets from column 4,
      and columns 4 and 16 of that line are stars. */
  lemma DiamondDashes(i: nat, j: nat)
    requires i < DiamondHeight && j < DiamondWidth
    ensures DiamondCell(i, j) == '-' <==> i == DiamondMid && 4 < j < 16 && (j - 4) % 2 == 1
    ensures DiamondCell(DiamondMid, 4) == '*' && DiamondCell(DiamondMid, 16) == '*'
  {
    DiamondIsPicture(i, j);
  }

  /** The picture is symmetric top to bottom ... */
  lemma DiamondSymmetric(i: nat)
    requires i < DiamondHeight
    ensures DiamondLine(i) == DiamondLine(DiamondHeight - 1 - i)
    ensures forall j :: 0 <= j < DiamondWidth ==> DiamondLine(i)[j] == DiamondLine(i)[DiamondWidth - 1 - j]
  {
    forall j | 0 <= j < DiamondWidth
      ensures DiamondCell(i, j) == DiamondCell(DiamondHeight - 1 - i, j)
    {
      DiamondIsPicture(i, j);
      DiamondIsPicture(DiamondHeight - 1 - i, j);
    }
    DiamondMirror(i);
  }

  /** ... and every line reads the same from both ends. */
  lemma DiamondMirror(i: nat)
    requires i < DiamondHeight
    ensures forall j :: 0 <= j < DiamondWidth ==> DiamondCell(i, j) == DiamondCell(i, DiamondWidth - 1 - j)
  {
    forall j | 0 <= j < DiamondWidth
      ensures DiamondCell(i, j) == DiamondCell(i, DiamondWidth - 1 - j)
    {
      DiamondIsPicture(i, j);
      DiamondIsPicture(i, DiamondWidth - 1 - j);
    }
  }
}
