/**
 * `String.format(template, arg)` with a single string argument, as the
 * confirm-order URL is produced: each `%s` takes the argument (a second one
 * finds no argument left), `%%` writes a percent sign, `%n` a line break
 * (the line separator of a Unix host); any other directive is treated as
 * an illegal format. The argument itself is copied verbatim, never scanned
 * for directives.
 */
module JavaFormat {

  datatype Formatted = Formatted(text: string) | IllegalFormat

  /** Formats `template`; `used` records whether the argument has already been consumed. */
  function FormatFrom(template: string, arg: string, used: bool): Formatted
    decreases |template|
  {
    if template == [] then Formatted("")
    else if template[0] != '%' then
      Prepend([template[0]], FormatFrom(template[1..], arg, used))
    else if |template| == 1 then IllegalFormat
    else if template[1] == 's' then
      if used then IllegalFormat else Prepend(arg, FormatFrom(template[2..], arg, true))
    else if template[1] == '%' then Prepend("%", FormatFrom(template[2..], arg, used))
    else if template[1] == 'n' then Prepend("\n", FormatFrom(template[2..], arg, used))
    else IllegalFormat
  }

  function Prepend(s: string, f: Formatted): Formatted {
    match f
    case Formatted(t) => Formatted(s + t)
    case IllegalFormat => IllegalFormat
  }

  /** String.format(template, arg); a template without `%` comes back unchanged. */
  function Format(template: string, arg: string): (r: Formatted)
    ensures '%' !in template ==> r == Formatted(template)
  {
    if '%' !in template then NoDirective(template, arg, false); FormatFrom(template, arg, false)
    else FormatFrom(template, arg, false)
  }

  /** A template with no directive at all is copied unchanged and ignores its argument. */
  lemma {:induction false} NoDirective(template: string, arg: string, used: bool)
    requires '%' !in template
    ensures FormatFrom(template, arg, used) == Formatted(template)
    decreases |template|
  {
    if template != [] {
      assert template == [template[0]] + template[1..];
      NoDirective(template[1..], arg, used);
    }
  }

  /**
   * A template holding a single `%s` and no other `%` formats to the text
   * around it with the argument in its place, whatever the argument holds.
   */
  lemma {:induction false} SingleHole(prefix: string, suffix: string, arg: string)
    requires '%' !in prefix && '%' !in suffix
    ensures Format(prefix + "%s" + suffix, arg) == Formatted(prefix + arg + suffix)
  {
    SingleHoleFrom(prefix, suffix, arg);
  }

  lemma {:induction false} SingleHoleFrom(prefix: string, suffix: string, arg: string)
    requires '%' !in prefix && '%' !in suffix
    ensures FormatFrom(prefix + "%s" + suffix, arg, false) == Formatted(prefix + arg + suffix)
    decreases |prefix|
  {
    if prefix == [] {
      HoleAtFront(prefix, suffix, arg);
      NoDirective(suffix, arg, true);
    } else {
      PlainAtFront(prefix, suffix, arg);
      SingleHoleFrom(prefix[1..], suffix, arg);
    }
  }

  /** With nothing before it, the template starts with the `%s` directive. */
  lemma HoleAtFront(prefix: string, suffix: string, arg: string)
    requires prefix == []
    ensures var t := prefix + "%s" + suffix;
      |t| >= 2 && t[0] == '%' && t[1] == 's' && t[2..] == suffix
    ensures prefix + arg + suffix == arg + suffix
  {
  }

  /** With a directive-free character first, the template is that character and the rest. */
  lemma PlainAtFront(prefix: string, suffix: string, arg: string)
    requires |prefix| > 0 && '%' !in prefix
    ensures var t := prefix + "%s" + suffix;
      |t| > 0 && t[0] == prefix[0] && t[0] != '%' && t[1..] == prefix[1..] + "%s" + suffix
    ensures '%' !in prefix[1..]
    ensures [prefix[0]] + (prefix[1..] + arg + suffix) == prefix + arg + suffix
  {
    assert prefix == [prefix[0]] + prefix[1..];
  }

  /**
   * The argument can be read back from a single-hole result: two arguments
   * that give the same text are the same argument.
   */
  lemma SingleHoleInjective(prefix: string, suffix: string, a: string, b: string)
    requires '%' !in prefix && '%' !in suffix
    requires Format(prefix + "%s" + suffix, a) == Format(prefix + "%s" + suffix, b)
    ensures a == b
  {
    SingleHole(prefix, suffix, a);
    SingleHole(prefix, suffix, b);
    var ta, tb := prefix + a + suffix, prefix + b + suffix;
    assert a == ta[|prefix|..|ta| - |suffix|];
    assert b == tb[|prefix|..|tb| - |suffix|];
  }

  /** Two `%s` directives with a single argument are an illegal format. */
  lemma {:induction false} SecondHoleIsIllegal(prefix: string, middle: string, suffix: string, arg: string, used: bool)
    requires '%' !in prefix && '%' !in middle
    ensures FormatFrom(prefix + "%s" + middle + "%s" + suffix, arg, used) == IllegalFormat
    decreases |prefix|
  {
    var t := prefix + "%s" + middle + "%s" + suffix;
    if prefix == [] {
      assert t[0] == '%' && t[1] == 's';
      if !used {
        assert t[2..] == middle + "%s" + suffix;
        SecondHoleAfterUse(middle, suffix, arg);
      } else {
        assert FormatFrom(t, arg, used) == IllegalFormat;
      }
    } else {
      assert prefix == [prefix[0]] + prefix[1..];
      assert t[0] == prefix[0] != '%';
      assert t[1..] == prefix[1..] + "%s" + middle + "%s" + suffix;
      SecondHoleIsIllegal(prefix[1..], middle, suffix, arg, used);
    }
  }

  lemma {:induction false} SecondHoleAfterUse(middle: string, suffix: string, arg: string)
    requires '%' !in middle
    ensures FormatFrom(middle + "%s" + suffix, arg, true) == IllegalFormat
    decreases |middle|
  {
    var t := middle + "%s" + suffix;
    if middle == [] {
      assert t[0] == '%' && t[1] == 's';
    } else {
      assert middle == [middle[0]] + middle[1..];
      assert t[0] == middle[0] != '%';
      assert t[1..] == middle[1..] + "%s" + suffix;
      SecondHoleAfterUse(middle[1..], suffix, arg);
    }
  }
}
