/**
 * The fixed header (app/src/components/Header.tsx): the "scrolled" flag set by
 * the scroll listener, the menu button's text, and the sub-navigation anchors,
 * whose hrefs are `'#' + label.toLowerCase().replace(/\s+/g, '-')`.
 */
module Header {
  import Home

  /** A character matched by `\s` in an ECMAScript regular expression (WhiteSpace and LineTerminator). */
  predicate IsSpace(c: char) {
    c == '\t' || c == '\n' || c == '\U{000B}' || c == '\U{000C}' || c == '\r' || c == ' '
    || c == '\U{00A0}' || c == '\U{1680}' || ('\U{2000}' <= c <= '\U{200A}')
    || c == '\U{2028}' || c == '\U{2029}' || c == '\U{202F}' || c == '\U{205F}'
    || c == '\U{3000}' || c == '\U{FEFF}'
  }

  predicate IsUpper(c: char) {
    'A' <= c <= 'Z'
  }

  predicate NoSpace(s: seq<char>) {
    forall i :: 0 <= i < |s| ==> !IsSpace(s[i])
  }

  /** Every character is whitespace. */
  predicate AllSpace(s: seq<char>) {
    forall i :: 0 <= i < |s| ==> IsSpace(s[i])
  }

  predicate NoUpper(s: seq<char>) {
    forall i :: 0 <= i < |s| ==> !IsUpper(s[i])
  }

  /** `toLowerCase` on one character, for the Latin letters A to Z. */
  function LowerChar(c: char): (r: char)
    ensures !IsUpper(r)
    ensures IsUpper(c) ==> r as int == c as int + 32
    ensures IsSpace(r) <==> IsSpace(c)
    ensures !IsUpper(c) ==> r == c
  {
    if IsUpper(c) then (c as int - 'A' as int + 'a' as int) as char else c
  }

  /** `toLowerCase` on a string: the same length, each character lowered. */
  function Lower(s: seq<char>): (r: seq<char>)
    ensures |r| == |s|
    ensures forall i :: 0 <= i < |s| ==> r[i] == LowerChar(s[i])
    ensures NoUpper(r)
    ensures NoSpace(s) ==> NoSpace(r)
  {
    seq(|s|, i requires 0 <= i < |s| => LowerChar(s[i]))
  }

  /** The input with its leading whitespace run removed. */
  function DropSpaces(s: seq<char>): (r: seq<char>)
    ensures |r| <= |s|
    ensures r == [] || !IsSpace(r[0])
    decreases |s|
  {
    if s != [] && IsSpace(s[0]) then DropSpaces(s[1..]) else s
  }

  /** Dropping the leading run keeps a final non-space character. */
  lemma {:induction false} DropSpacesKeepsLast(s: seq<char>)
    requires s != [] && !IsSpace(s[|s| - 1])
    ensures DropSpaces(s) != [] && DropSpaces(s)[|DropSpaces(s)| - 1] == s[|s| - 1]
    decreases |s|
  {
    if IsSpace(s[0]) {
      DropSpacesKeepsLast(s[1..]);
    }
  }

  /** Dropping the leading run brings in no upper-case letter. */
  lemma {:induction false} DropSpacesNoUpper(s: seq<char>)
    requires NoUpper(s)
    ensures NoUpper(DropSpaces(s))
    decreases |s|
  {
    if s != [] && IsSpace(s[0]) {
      NoUpperTail(s);
      DropSpacesNoUpper(s[1..]);
    }
  }

  lemma NoUpperTail(s: seq<char>)
    requires s != [] && NoUpper(s)
    ensures NoUpper(s[1..])
  {
    forall i | 0 <= i < |s[1..]| ensures !IsUpper(s[1..][i]) {
      assert s[1..][i] == s[i + 1];
    }
  }

  /** `replace(/\s+/g, '-')`: every maximal whitespace run becomes one '-'. */
  function Collapse(s: seq<char>): seq<char>
    decreases |s|
  {
    if s == [] then []
    else if IsSpace(s[0]) then ['-'] + Collapse(DropSpaces(s[1..]))
    else [s[0]] + Collapse(s[1..])
  }

  /** The anchor a sub-navigation label links to. */
  function Slug(name: seq<char>): seq<char>
  {
    Collapse(Lower(name))
  }

  /** No whitespace survives the replacement. */
  lemma {:induction false} CollapseNoSpace(s: seq<char>)
    ensures NoSpace(Collapse(s))
    decreases |s|
  {
    if s != [] {
      if IsSpace(s[0]) {
        CollapseNoSpace(DropSpaces(s[1..]));
      } else {
        CollapseNoSpace(s[1..]);
      }
    }
  }

  /** The replacement adds only '-', so it brings in no upper-case letter. */
  lemma {:induction false} CollapseNoUpper(s: seq<char>)
    requires NoUpper(s)
    ensures NoUpper(Collapse(s))
    decreases |s|
  {
    if s != [] {
      var rest := s[1..];
      NoUpperTail(s);
      if IsSpace(s[0]) {
        DropSpacesNoUpper(rest);
        CollapseNoUpper(DropSpaces(rest));
      } else {
        CollapseNoUpper(rest);
      }
    }
  }

  /** A slug has neither whitespace nor upper-case letters. */
  lemma SlugIsAnchor(name: seq<char>)
    ensures NoSpace(Slug(name)) && NoUpper(Slug(name))
  {
    CollapseNoSpace(Lower(name));
    CollapseNoUpper(Lower(name));
  }

  /** A string with no whitespace is left as it is. */
  lemma {:induction false} CollapseNoSpaceIdentity(s: seq<char>)
    requires NoSpace(s)
    ensures Collapse(s) == s
    decreases |s|
  {
    if s != [] {
      CollapseNoSpaceIdentity(s[1..]);
    }
  }

  /** A run of whitespace followed by text that does not start with whitespace drops exactly the run. */
  lemma {:induction false} DropSpacesRun(w: seq<char>, b: seq<char>)
    requires b == [] || !IsSpace(b[0])
    requires AllSpace(w)
    ensures DropSpaces(w + b) == b
    decreases |w|
  {
    if w == [] {
      assert w + b == b;
    } else {
      assert IsSpace((w + b)[0]);
      assert (w + b)[1..] == w[1..] + b;
      assert AllSpace(w[1..]) by {
        forall i | 0 <= i < |w[1..]| ensures IsSpace(w[1..][i]) {
          assert w[1..][i] == w[i + 1];
        }
      }
      DropSpacesRun(w[1..], b);
    }
  }

  /** Dropping leading whitespace from `a + t` stays inside `a` when `a` ends in a non-space. */
  lemma {:induction false} DropSpacesAppend(a: seq<char>, t: seq<char>)
    requires a != [] && !IsSpace(a[|a| - 1])
    ensures DropSpaces(a + t) == DropSpaces(a) + t
    decreases |a|
  {
    if IsSpace(a[0]) {
      assert (a + t)[1..] == a[1..] + t;
      DropSpacesAppend(a[1..], t);
    }
  }

  /**
   * A maximal whitespace run `w` between `a` and `b` becomes exactly one '-':
   * the slug of the whole is the slug of the left part, '-', the slug of the right part.
   */
  lemma {:induction false} RunBecomesOneDash(a: seq<char>, w: seq<char>, b: seq<char>)
    requires w != [] && AllSpace(w)
    requires a == [] || !IsSpace(a[|a| - 1])
    requires b == [] || !IsSpace(b[0])
    ensures Collapse(a + (w + b)) == Collapse(a) + (['-'] + Collapse(b))
    decreases |a|, 1
  {
    if a == [] {
      RunAtFront(w, b);
      assert a + (w + b) == w + b;
    } else if IsSpace(a[0]) {
      RunAfterSpace(a, w, b);
    } else {
      RunAfterChar(a, w, b);
    }
  }

  /** The case of `RunBecomesOneDash` where `a` starts with whitespace. */
  lemma {:induction false} RunAfterSpace(a: seq<char>, w: seq<char>, b: seq<char>)
    requires w != [] && AllSpace(w)
    requires a != [] && IsSpace(a[0]) && !IsSpace(a[|a| - 1])
    requires b == [] || !IsSpace(b[0])
    ensures Collapse(a + (w + b)) == Collapse(a) + (['-'] + Collapse(b))
    decreases |a|, 0
  {
    var rest := a[1..];
    UnfoldHead(a, w + b);
    assert rest != [] && rest[|rest| - 1] == a[|a| - 1];
    DropSpacesAppend(rest, w + b);
    DropSpacesKeepsLast(rest);
    var d := DropSpaces(rest);
    RunBecomesOneDash(d, w, b);
    Assoc(['-'], Collapse(d), ['-'] + Collapse(b));
  }

  /** The case of `RunBecomesOneDash` where `a` starts with a non-space. */
  lemma {:induction false} RunAfterChar(a: seq<char>, w: seq<char>, b: seq<char>)
    requires w != [] && AllSpace(w)
    requires a != [] && !IsSpace(a[0]) && !IsSpace(a[|a| - 1])
    requires b == [] || !IsSpace(b[0])
    ensures Collapse(a + (w + b)) == Collapse(a) + (['-'] + Collapse(b))
    decreases |a|, 0
  {
    var rest := a[1..];
    UnfoldHead(a, w + b);
    assert rest == [] || rest[|rest| - 1] == a[|a| - 1];
    RunBecomesOneDash(rest, w, b);
    Assoc([a[0]], Collapse(rest), ['-'] + Collapse(b));
  }

  /** One step of the replacement on `a + t`, for a non-empty `a`. */
  lemma UnfoldHead(a: seq<char>, t: seq<char>)
    requires a != []
    ensures IsSpace(a[0]) ==> Collapse(a + t) == ['-'] + Collapse(DropSpaces(a[1..] + t))
    ensures IsSpace(a[0]) ==> Collapse(a) == ['-'] + Collapse(DropSpaces(a[1..]))
    ensures !IsSpace(a[0]) ==> Collapse(a + t) == [a[0]] + Collapse(a[1..] + t)
    ensures !IsSpace(a[0]) ==> Collapse(a) == [a[0]] + Collapse(a[1..])
  {
    assert (a + t)[0] == a[0];
    assert (a + t)[1..] == a[1..] + t;
  }

  lemma Assoc(h: seq<char>, x: seq<char>, y: seq<char>)
    ensures h + (x + y) == (h + x) + y
  {
  }

  /** A leading whitespace run becomes one '-'. */
  lemma RunAtFront(w: seq<char>, b: seq<char>)
    requires w != [] && AllSpace(w)
    requires b == [] || !IsSpace(b[0])
    ensures Collapse(w + b) == ['-'] + Collapse(b)
  {
    assert IsSpace((w + b)[0]);
    assert (w + b)[1..] == w[1..] + b;
    assert AllSpace(w[1..]) by {
      forall i | 0 <= i < |w[1..]| ensures IsSpace(w[1..][i]) {
        assert w[1..][i] == w[i + 1];
      }
    }
    DropSpacesRun(w[1..], b);
  }

  /** The labels of the sub-navigation, in order. */
  const SubNavLabels: seq<string> := ["THE BEGINNING", "THE JOURNEY", "THE PROMISE", "FOREVER"]

  /** The href of a sub-navigation anchor. */
  function SubNavHref(name: string): (r: string)
    ensures |r| >= 1 && r[0] == '#' && NoSpace(r[1..]) && NoUpper(r[1..])
    ensures r[1..] == Slug(name)
  {
    SlugIsAnchor(name);
    assert ("#" + Slug(name))[1..] == Slug(name);
    "#" + Slug(name)
  }

  /** Lower-casing works character by character, so it distributes over concatenation. */
  lemma LowerAppend(a: seq<char>, b: seq<char>)
    ensures Lower(a + b) == Lower(a) + Lower(b)
  {
  }

  /** Two words separated by one space slug to the lower-cased words joined by '-'. */
  lemma SlugTwoWords(a: seq<char>, b: seq<char>)
    requires a != [] && b != [] && NoSpace(a) && NoSpace(b)
    ensures Slug(a + " " + b) == Lower(a) + "-" + Lower(b)
  {
    var la, lb := Lower(a), Lower(b);
    assert Lower(" ") == " ";
    calc {
      Lower(a + " " + b);
      { LowerAppend(a + " ", b); }
      Lower(a + " ") + lb;
      { LowerAppend(a, " "); }
      la + " " + lb;
      { Assoc(la, " ", lb); }
      la + (" " + lb);
    }
    assert !IsSpace(la[|la| - 1]) && !IsSpace(lb[0]);
    assert AllSpace(" ");
    RunBecomesOneDash(la, " ", lb);
    CollapseNoSpaceIdentity(la);
    CollapseNoSpaceIdentity(lb);
    Assoc(la, "-", lb);
  }

  // The lower-case forms of the words of the sub-navigation labels.

  lemma LowerThe()
    ensures Lower("THE") == "the" && NoSpace("THE")
  {
  }

  lemma LowerBeginning()
    ensures Lower("BEGINNING") == "beginning" && NoSpace("BEGINNING")
  {
  }

  lemma LowerJourney()
    ensures Lower("JOURNEY") == "journey" && NoSpace("JOURNEY")
  {
  }

  lemma LowerPromise()
    ensures Lower("PROMISE") == "promise" && NoSpace("PROMISE")
  {
  }

  lemma LowerForever()
    ensures Lower("FOREVER") == "forever" && NoSpace("FOREVER")
  {
  }

  /** The slugs of the four sub-navigation labels. */
  lemma SlugTheBeginning()
    ensures Slug("THE BEGINNING") == "the-beginning"
  {
    LowerThe();
    LowerBeginning();
    SlugTwoWords("THE", "BEGINNING");
    assert "THE" + " " + "BEGINNING" == "THE BEGINNING";
    assert "the" + "-" + "beginning" == "the-beginning";
  }

  lemma SlugTheJourney()
    ensures Slug("THE JOURNEY") == "the-journey"
  {
    LowerThe();
    LowerJourney();
    SlugTwoWords("THE", "JOURNEY");
    assert "THE" + " " + "JOURNEY" == "THE JOURNEY";
    assert "the" + "-" + "journey" == "the-journey";
  }

  lemma SlugThePromise()
    ensures Slug("THE PROMISE") == "the-promise"
  {
    LowerThe();
    LowerPromise();
    SlugTwoWords("THE", "PROMISE");
    assert "THE" + " " + "PROMISE" == "THE PROMISE";
    assert "the" + "-" + "promise" == "the-promise";
  }

  lemma SlugForever()
    ensures Slug("FOREVER") == "forever"
  {
    LowerForever();
    CollapseNoSpaceIdentity("forever");
  }

  /** Each sub-navigation anchor links to the id of a section on the home page. */
  lemma SubNavTargetsExist()
    ensures forall i :: 0 <= i < |SubNavLabels| ==> SubNavHref(SubNavLabels[i])[1..] in Home.SectionIds
  {
    forall i | 0 <= i < |SubNavLabels| ensures SubNavHref(SubNavLabels[i])[1..] in Home.SectionIds {
      if i == 0 {
        SlugTheBeginning();
      } else if i == 1 {
        SlugTheJourney();
      } else if i == 2 {
        SlugThePromise();
      } else {
        SlugForever();
      }
    }
  }

  /** The distance past which the header counts as scrolled. */
  const ScrollThreshold: real := 100.0

  /** `window.scrollY > 100`. */
  predicate ScrolledAt(scrollY: real) {
    scrollY > ScrollThreshold
  }

  /** The threshold is strict, and once past it, scrolling further keeps the flag set. */
  lemma ScrolledThreshold(y1: real, y2: real)
    ensures !ScrolledAt(ScrollThreshold)
    ensures ScrolledAt(y1) && y1 <= y2 ==> ScrolledAt(y2)
    ensures ScrolledAt(y1) <==> y1 > 100.0
  {
  }

  /** The menu button's visible text. */
  function MenuButtonText(isMenuOpen: bool): (r: string)
    ensures r == "CLOSE" <==> isMenuOpen
    ensures r == "MENU" <==> !isMenuOpen
  {
    if isMenuOpen then "CLOSE" else "MENU"
  }

  /** The menu button's aria-label. */
  function MenuButtonAriaLabel(isMenuOpen: bool): (r: string)
    ensures r == "Close menu" <==> isMenuOpen
    ensures r == "Open menu" <==> !isMenuOpen
  {
    if isMenuOpen then "Close menu" else "Open menu"
  }

  /** The sub-navigation strip's classes when it is open, and when it is collapsed. */
  const SubNavExpanded: string := "max-h-14 opacity-100"
  const SubNavCollapsed: string := "max-h-0 opacity-0"

  /** The header's scroll-driven state. */
  class HeaderView {
    var isScrolled: bool

    /** Before the first scroll event the header is not scrolled. */
    constructor ()
      ensures !isScrolled && SubNavClass() == SubNavCollapsed
    {
      isScrolled := false;
    }

    /** The scroll listener. */
    method OnScroll(scrollY: real)
      modifies this
      ensures isScrolled <==> scrollY > ScrollThreshold
      ensures SubNavClass() == SubNavExpanded <==> ScrolledAt(scrollY)
    {
      isScrolled := ScrolledAt(scrollY);
    }

    /** The classes that open or collapse the sub-navigation strip. */
    function SubNavClass(): (r: string)
      reads this
      ensures r == SubNavExpanded <==> isScrolled
      ensures r == SubNavCollapsed <==> !isScrolled
    {
      if isScrolled then SubNavExpanded else SubNavCollapsed
    }
  }
}
