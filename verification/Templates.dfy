/** The URL template: it is executed once on "%[k]s" placeholders, and the text that
    comes out is used as a printf format for every service. */
module Templates {
  import opened Text

  datatype Token = Lit(text: string) | Service | Namespace | Domain

  /** Executing a template on its three fields. */
  function Render(template: seq<Token>, service: string, namespace: string, domain: string): string {
    if template == [] then ""
    else
      var head := match template[0]
        case Lit(text) => text
        case Service => service
        case Namespace => namespace
        case Domain => domain;
      head + Render(template[1..], service, namespace, domain)
  }

  const DEFAULT_TEMPLATE := [Service, Lit("."), Namespace, Lit("."), Domain]

  /** getURLFormat, where `[]` stands for the missing template. */
  function UrlFormat(template: seq<Token>): string {
    Render(if template == [] then DEFAULT_TEMPLATE else template, "%[1]s", "%[2]s", "%[3]s")
  }

  // ---- Sprintf with explicit argument indexes ------------------------------

  /** Whether an explicitly indexed string verb starts the text. */
  predicate StartsWithVerb(format: string) {
    |format| >= 5 && format[..2] == "%[" && '1' <= format[2] <= '3' && format[3..5] == "]s"
  }

  function Verbs(format: string, service: string, namespace: string, domain: string): string {
    if format == "" then ""
    else if StartsWithVerb(format) then
      (if format[2] == '1' then service else if format[2] == '2' then namespace else domain)
      + Verbs(format[5..], service, namespace, domain)
    else [format[0]] + Verbs(format[1..], service, namespace, domain)
  }

  predicate HasVerb(format: string) {
    format != "" && (StartsWithVerb(format) || HasVerb(format[1..]))
  }

  /** How many verbs of the format print the service. */
  function Copies(format: string): nat {
    if format == "" then 0
    else if StartsWithVerb(format) then (if format[2] == '1' then 1 else 0) + Copies(format[5..])
    else Copies(format[1..])
  }

  /** `fmt.Sprintf` with three string arguments, on formats whose only use of '%' is
      an explicitly indexed string verb. With no verb at all Go reports the arguments
      as extra. */
  function Sprintf(format: string, service: string, namespace: string, domain: string): string {
    Verbs(format, service, namespace, domain)
    + if HasVerb(format) then ""
      else "%!(EXTRA string=" + service + ", string=" + namespace + ", string=" + domain + ")"
  }

  predicate PercentFree(template: seq<Token>) {
    forall i | 0 <= i < |template| :: template[i].Lit? ==> '%' !in template[i].text
  }

  predicate HasField(template: seq<Token>) {
    exists i | 0 <= i < |template| :: !template[i].Lit?
  }

  function ServiceFields(template: seq<Token>): nat {
    if template == [] then 0 else (if template[0].Service? then 1 else 0) + ServiceFields(template[1..])
  }

  /** Running a format that starts with plain text. */
  lemma {:induction false} VerbsSkip(text: string, format: string, service: string, namespace: string, domain: string)
    requires '%' !in text
    ensures Verbs(text + format, service, namespace, domain) == text + Verbs(format, service, namespace, domain)
    ensures HasVerb(text + format) == HasVerb(format) && Copies(text + format) == Copies(format)
  {
    if text == "" {
      assert text + format == format;
    } else {
      var rest := text[1..];
      VerbsSkip(rest, format, service, namespace, domain);
      PlainStep(text[0], rest + format, service, namespace, domain);
      assert text + format == [text[0]] + (rest + format);
      assert text + Verbs(format, service, namespace, domain) == [text[0]] + (rest + Verbs(format, service, namespace, domain));
    }
  }

  lemma PlainStep(c: char, format: string, service: string, namespace: string, domain: string)
    requires c != '%'
    ensures Verbs([c] + format, service, namespace, domain) == [c] + Verbs(format, service, namespace, domain)
    ensures HasVerb([c] + format) == HasVerb(format) && Copies([c] + format) == Copies(format)
  {
    var all := [c] + format;
    assert all[0] == c && all[1..] == format;
    assert !StartsWithVerb(all);
  }

  lemma VerbsStep(digit: char, format: string, service: string, namespace: string, domain: string)
    requires '1' <= digit <= '3'
    ensures var verb := "%[" + [digit] + "]s";
            && Verbs(verb + format, service, namespace, domain)
               == (if digit == '1' then service else if digit == '2' then namespace else domain)
                  + Verbs(format, service, namespace, domain)
            && HasVerb(verb + format) && Copies(verb + format) == (if digit == '1' then 1 else 0) + Copies(format)
  {
    var all := "%[" + [digit] + "]s" + format;
    assert all[..2] == "%[" && all[2] == digit && all[3..5] == "]s" && all[5..] == format;
    assert StartsWithVerb(all);
  }

  lemma {:induction false} RunningThePlaceholders(template: seq<Token>, service: string, namespace: string, domain: string)
    requires PercentFree(template)
    ensures var format := Render(template, "%[1]s", "%[2]s", "%[3]s");
            && Verbs(format, service, namespace, domain) == Render(template, service, namespace, domain)
            && (HasVerb(format) <==> HasField(template)) && Copies(format) == ServiceFields(template)
  {
    if template != [] {
      var rest := template[1..];
      var format := Render(rest, "%[1]s", "%[2]s", "%[3]s");
      RunningThePlaceholders(rest, service, namespace, domain);
      assert HasField(template) <==> !template[0].Lit? || HasField(rest) by {
        if HasField(rest) {
          var i :| 0 <= i < |rest| && !rest[i].Lit?;
          assert !template[i + 1].Lit?;
        }
        if HasField(template) && template[0].Lit? {
          var i :| 0 <= i < |template| && !template[i].Lit?;
          assert !rest[i - 1].Lit?;
        }
      }
      match template[0] {
        case Lit(text) => VerbsSkip(text, format, service, namespace, domain);
        case Service => VerbsStep('1', format, service, namespace, domain); assert "%[" + ['1'] + "]s" == "%[1]s";
        case Namespace => VerbsStep('2', format, service, namespace, domain); assert "%[" + ['2'] + "]s" == "%[2]s";
        case Domain => VerbsStep('3', format, service, namespace, domain); assert "%[" + ['3'] + "]s" == "%[3]s";
      }
    }
  }

  /** The template actually used: a missing one is replaced by the default. */
  function Effective(template: seq<Token>): seq<Token> {
    if template == [] then DEFAULT_TEMPLATE else template
  }

  /** Compiling a template to a format and running that format is rendering the
      template, exactly when the template has a field; without one, Go's report of
      unused arguments ends up in the host name. */
  lemma CompilationPreservesMeaning(template: seq<Token>, service: string, namespace: string, domain: string)
    requires PercentFree(template)
    ensures Sprintf(UrlFormat(template), service, namespace, domain)
            == Render(Effective(template), service, namespace, domain)
       <==> HasField(Effective(template))
  {
    RunningThePlaceholders(Effective(template), service, namespace, domain);
    if template == [] {
      assert !DEFAULT_TEMPLATE[0].Lit?;
    }
  }

  // ---- How the host depends on the service ---------------------------------

  /** How often the host repeats the service; Go's report of unused arguments repeats it once. */
  function ServiceCopies(format: string): nat {
    if HasVerb(format) then Copies(format) else 1
  }

  /** What the host contains besides the service. */
  function Surroundings(format: string, namespace: string, domain: string): string {
    Sprintf(format, "", namespace, domain)
  }

  lemma {:induction false} VerbsLength(format: string, service: string, namespace: string, domain: string)
    ensures |Verbs(format, service, namespace, domain)| >= |Verbs(format, "", namespace, domain)|
         + (if Copies(format) == 0 then 0 else if Copies(format) == 1 then |service| else 2 * |service|)
    ensures Copies(format) == 0 ==> Verbs(format, service, namespace, domain) == Verbs(format, "", namespace, domain)
    ensures !HasVerb(format) ==> Copies(format) == 0
  {
    if format != "" {
      VerbsLength(if StartsWithVerb(format) then format[5..] else format[1..], service, namespace, domain);
    }
  }

  lemma HostLength(format: string, service: string, namespace: string, domain: string)
    ensures var n := ServiceCopies(format);
      |Sprintf(format, service, namespace, domain)|
        >= |Surroundings(format, namespace, domain)| + (if n == 0 then 0 else if n == 1 then |service| else 2 * |service|)
  {
    VerbsLength(format, service, namespace, domain);
  }

  lemma HostWithoutService(format: string, service: string, namespace: string, domain: string)
    requires ServiceCopies(format) == 0
    ensures Sprintf(format, service, namespace, domain) == Surroundings(format, namespace, domain)
  {
    VerbsLength(format, service, namespace, domain);
  }

  lemma HostIsService(format: string, service: string, namespace: string, domain: string)
    requires ServiceCopies(format) == 1 && Surroundings(format, namespace, domain) == ""
    ensures Sprintf(format, service, namespace, domain) == service
  {
    assert HasVerb(format);
    VerbsAreService(format, service, namespace, domain);
  }

  lemma {:induction false} VerbsAreService(format: string, service: string, namespace: string, domain: string)
    requires Copies(format) == 1 && Verbs(format, "", namespace, domain) == ""
    ensures Verbs(format, service, namespace, domain) == service
  {
    assert StartsWithVerb(format);
    if format[2] == '1' {
      VerbsLength(format[5..], service, namespace, domain);
    } else {
      VerbsAreService(format[5..], service, namespace, domain);
    }
  }

  // ---- Host mode -----------------------------------------------------------

  lemma DefaultHost(service: string, namespace: string, domain: string)
    ensures Sprintf(UrlFormat([]), service, namespace, domain) == service + "." + namespace + "." + domain
  {
    CompilationPreservesMeaning([], service, namespace, domain);
    assert !DEFAULT_TEMPLATE[0].Lit?;
    hide Sprintf, UrlFormat;
    RenderDefault(service, namespace, domain);
  }

  lemma RenderStep(head: Token, rest: seq<Token>, service: string, namespace: string, domain: string)
    ensures Render([head] + rest, service, namespace, domain)
         == Render([head], service, namespace, domain) + Render(rest, service, namespace, domain)
  {
    assert ([head] + rest)[1..] == rest;
    assert [head][1..] == [];
    assert Render([], service, namespace, domain) == "";
  }

  lemma RenderDefault(service: string, namespace: string, domain: string)
    ensures Render(DEFAULT_TEMPLATE, service, namespace, domain) == service + "." + namespace + "." + domain
  {
    RenderOne(service, namespace, domain);
    RenderStep(Lit("."), [Domain], service, namespace, domain);
    RenderStep(Namespace, [Lit("."), Domain], service, namespace, domain);
    RenderStep(Lit("."), [Namespace, Lit("."), Domain], service, namespace, domain);
    RenderStep(Service, [Lit("."), Namespace, Lit("."), Domain], service, namespace, domain);
    hide Render;
    assert [Lit(".")] + [Domain] == [Lit("."), Domain];
    assert [Namespace] + [Lit("."), Domain] == [Namespace, Lit("."), Domain];
    assert [Lit(".")] + [Namespace, Lit("."), Domain] == [Lit("."), Namespace, Lit("."), Domain];
    assert [Service] + [Lit("."), Namespace, Lit("."), Domain] == DEFAULT_TEMPLATE;
    Grouped(service, namespace, domain);
  }

  lemma RenderOne(service: string, namespace: string, domain: string)
    ensures Render([Service], service, namespace, domain) == service
    ensures Render([Namespace], service, namespace, domain) == namespace
    ensures Render([Domain], service, namespace, domain) == domain
    ensures Render([Lit(".")], service, namespace, domain) == "."
  {
    assert Render([], service, namespace, domain) == "";
  }

  lemma Grouped(a: string, b: string, c: string)
    ensures a + ("." + (b + ("." + c))) == a + "." + b + "." + c
  {
  }

  /** With the default template and one domain, services with different host names or
      namespaces get different hosts, as long as the namespaces are labels without a
      dot; the host names may contain dots. */
  lemma HostsAreDistinct(service: string, namespace: string, service': string, namespace': string, domain: string)
    requires '.' !in namespace && '.' !in namespace'
    ensures Sprintf(UrlFormat([]), service, namespace, domain) == Sprintf(UrlFormat([]), service', namespace', domain)
       <==> service == service' && namespace == namespace'
  {
    DefaultHost(service, namespace, domain);
    DefaultHost(service', namespace', domain);
    DottedNamesAreDistinct(service, namespace, service', namespace', domain);
  }

  lemma DottedNamesAreDistinct(service: string, namespace: string, service': string, namespace': string, domain: string)
    requires '.' !in namespace && '.' !in namespace'
    ensures service + "." + namespace + "." + domain == service' + "." + namespace' + "." + domain
       <==> service == service' && namespace == namespace'
  {
    var a, b := service + "." + namespace, service' + "." + namespace';
    var s, t := a + "." + domain, b + "." + domain;
    if s == t {
      assert |a| == |b|;
      assert a == s[..|a|] && b == t[..|b|];
      LastSeparatorUnique(service, namespace, service', namespace', '.');
    }
  }

  /** A format without any '%' is printed as it is, with Go's report of the arguments behind it. */
  lemma PlainFormatReports(format: string, service: string, namespace: string, domain: string)
    requires '%' !in format
    ensures Sprintf(format, service, namespace, domain)
         == format + "%!(EXTRA string=" + service + ", string=" + namespace + ", string=" + domain + ")"
  {
    VerbsSkip(format, "", service, namespace, domain);
    assert format + "" == format;
    assert Verbs("", service, namespace, domain) == "" && !HasVerb("");
    Regroup(format, "%!(EXTRA string=", service, ", string=", namespace, domain);
  }

  lemma Regroup(format: string, a: string, service: string, b: string, namespace: string, domain: string)
    ensures format + (a + service + b + namespace + b + domain + ")") == format + a + service + b + namespace + b + domain + ")"
  {
  }
}
