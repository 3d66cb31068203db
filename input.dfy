/** The text input component (components/ui/input.tsx): the `cn`
    class-name joiner and the props `Input` passes to `<input>`. */
module InputComponent {
  import opened Wrappers
  import opened Lists

  /** A `cn` argument: `string | false | null | undefined`. */
  datatype ClassValue = Name(s: string) | False | Null | Undefined

  /** `Boolean(c)`. */
  predicate Truthy(c: ClassValue) {
    c.Name? && c.s != ""
  }

  /** How `Array.prototype.join` renders one element. `Cn` joins only truthy
      arguments, so there only the `Name` arm is reached; the other arms
      give what `join` would print for an unfiltered argument. */
  function JoinText(c: ClassValue): string {
    match c
    case Name(s) => s
    case False => "false"
    case Null => ""
    case Undefined => ""
  }

  function JoinTexts(cs: seq<ClassValue>): (r: seq<string>)
    ensures |r| == |cs|
    ensures forall i :: 0 <= i < |cs| ==> r[i] == JoinText(cs[i])
  {
    seq(|cs|, i requires 0 <= i < |cs| => JoinText(cs[i]))
  }

  /** `words.join(sep)`. */
  function Join(words: seq<string>, sep: string): string
    decreases |words|
  {
    if words == [] then "" else if |words| == 1 then words[0] else words[0] + sep + Join(words[1..], sep)
  }

  /** `cn(...classes)`: `classes.filter(Boolean).join(' ')`, which is empty
      exactly when no argument is truthy. */
  function Cn(classes: seq<ClassValue>): (r: string)
    ensures r == "" <==> forall i :: 0 <= i < |classes| ==> !Truthy(classes[i])
  {
    JoinedTruthyEmpty(classes);
    Join(JoinTexts(Filter(classes, Truthy)), " ")
  }

  /** Two class strings as `cn` joins them: an empty one disappears. */
  function Concat(x: string, y: string): string {
    if x == "" then y else if y == "" then x else x + " " + y
  }

  lemma {:induction false} JoinAppend(a: seq<string>, b: seq<string>, sep: string)
    requires a != [] && b != []
    ensures Join(a + b, sep) == Join(a, sep) + sep + Join(b, sep)
    decreases |a|
  {
    if |a| > 1 {
      JoinAppend(a[1..], b, sep);
      assert (a + b)[1..] == a[1..] + b;
    }
  }

  lemma {:induction false} JoinNonEmpty(words: seq<string>, sep: string)
    requires words != [] && words[0] != ""
    ensures Join(words, sep) != ""
  {
    assert Join(words, sep)[..|words[0]|] == words[0];
  }

  /** The truthy arguments, rendered, are all non-empty strings. */
  lemma TruthyTexts(classes: seq<ClassValue>)
    ensures forall i :: 0 <= i < |JoinTexts(Filter(classes, Truthy))| ==> JoinTexts(Filter(classes, Truthy))[i] != ""
  {
  }

  /** `cn` keeps argument order: the classes of a concatenation are those of
      the first part followed by those of the second. */
  lemma CnAppend(a: seq<ClassValue>, b: seq<ClassValue>)
    ensures Cn(a + b) == Concat(Cn(a), Cn(b))
  {
    FilterAppend(a, b, Truthy);
    var fa, fb := Filter(a, Truthy), Filter(b, Truthy);
    assert JoinTexts(fa + fb) == JoinTexts(fa) + JoinTexts(fb);
    TruthyTexts(a);
    TruthyTexts(b);
    if fa == [] {
      assert fa + fb == fb;
    } else if fb == [] {
      assert fa + fb == fa;
      JoinNonEmpty(JoinTexts(fa), " ");
    } else {
      JoinAppend(JoinTexts(fa), JoinTexts(fb), " ");
      JoinNonEmpty(JoinTexts(fa), " ");
      JoinNonEmpty(JoinTexts(fb), " ");
    }
  }

  /** A single truthy argument comes back as it is; a falsy one gives "". */
  lemma CnSingle(c: ClassValue)
    ensures Cn([c]) == if Truthy(c) then c.s else ""
  {
    assert [c][1..] == [];
  }

  /** The truthy arguments, rendered and joined, are "" exactly when there are none. */
  lemma JoinedTruthyEmpty(classes: seq<ClassValue>)
    ensures Join(JoinTexts(Filter(classes, Truthy)), " ") == "" <==> forall i :: 0 <= i < |classes| ==> !Truthy(classes[i])
  {
    FilterMembership(classes, Truthy);
    TruthyTexts(classes);
    var f := Filter(classes, Truthy);
    if f != [] {
      JoinNonEmpty(JoinTexts(f), " ");
      assert f[0] in classes;
    } else {
      forall i | 0 <= i < |classes|
        ensures !Truthy(classes[i])
      {
        assert classes[i] in classes;
        assert classes[i] !in f;
      }
    }
  }

  /** Dropping falsy arguments beforehand changes nothing. */
  lemma CnIgnoresFalsy(classes: seq<ClassValue>)
    ensures Cn(Filter(classes, Truthy)) == Cn(classes)
  {
    FilterIdempotent(classes, Truthy);
  }

  const BaseClasses := "flex h-10 w-full rounded-md border border-input bg-background px-3 py-2 text-base ring-offset-background placeholder:text-muted-foreground focus-visible:outline-none focus-visible:ring-2 focus-visible:ring-ring focus-visible:ring-offset-2 disabled:cursor-not-allowed disabled:opacity-50 md:text-sm"

  /** The props `Input` renders: the `type` and the `className`. */
  datatype InputProps = InputProps(inputType: string, className: string)

  /** `Input({className, type = 'text'})`: the default applies only when `type` is undefined. */
  function Input(inputType: Option<string>, className: ClassValue): (p: InputProps)
    ensures inputType.None? ==> p.inputType == "text"
    ensures inputType.Some? ==> p.inputType == inputType.value
  {
    InputProps(if inputType.Some? then inputType.value else "text", Cn([Name(BaseClasses), className]))
  }

  /** The base classes come first and the caller's `className` follows after one space. */
  lemma InputClassOrder(inputType: Option<string>, className: ClassValue)
    ensures Truthy(className) ==> Input(inputType, className).className == BaseClasses + " " + className.s
    ensures !Truthy(className) ==> Input(inputType, className).className == BaseClasses
  {
    CnAppend([Name(BaseClasses)], [className]);
    assert [Name(BaseClasses)] + [className] == [Name(BaseClasses), className];
    CnSingle(Name(BaseClasses));
    CnSingle(className);
  }
}
