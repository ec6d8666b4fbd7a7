/// src/services/detailEvaluator.ts: asking the oracle whether one property's
/// detail page meets the criteria, reading its JSON verdict, and turning every
/// failure into a non-match.
module DetailEvaluator {
  import opened Wrappers
  import opened Text
  import opened Oracle
  import opened Flatten
  import opened DetailScraper

  const ParseFailure: string := "Failed to parse AI evaluation response"
  const ErrorPrefix: string := "Error during evaluation: "

  /// What the prompt of lines 44-63 carries besides fixed wording.
  datatype DetailPrompt = DetailPrompt(criteria: string, agency: string, url: string, flattenedHtml: string)

  /// The fields of the parsed JSON object that the pipeline reads: the
  /// truthiness of `matches`, and `reasoning`.
  datatype ParsedEvaluation = ParsedEvaluation(matches: bool, reasoning: string)

  /// Lines 25-29.
  datatype PropertyEvaluation = PropertyEvaluation(property: PropertyDetail, matches: bool, reasoning: string)

  /// The prompt for `property`. `parse` is cheerio's parse of a page into the
  /// children of its body; the page is flattened from indentation 0.
  function PromptFor(property: PropertyDetail, criteria: string, parse: string -> seq<Node>): DetailPrompt {
    DetailPrompt(criteria, property.agency, property.url, Join(BodyLines(parse(property.html), 0), "\n"))
  }

  /// `evaluatePropertyDetail(property, criteria)` (lines 31-122). `parseJson`
  /// is `JSON.parse` followed by the assignment of line 93, None when either
  /// throws.
  function EvaluatePropertyDetail(property: PropertyDetail, criteria: string, parse: string -> seq<Node>,
                                  oracle: DetailPrompt -> Reply, parseJson: string -> Option<ParsedEvaluation>): (e: PropertyEvaluation)
    ensures e.property == property
    ensures var content := TrimmedContent(oracle(PromptFor(property, criteria, parse)));
      e.matches <==> (content.Some? && parseJson(StripFences(content.value)).Some?
        && parseJson(StripFences(content.value)).value.matches)
  {
    var reply := oracle(PromptFor(property, criteria, parse));
    match TrimmedContent(reply)
    case None => PropertyEvaluation(property, false, ErrorPrefix + (if reply.Failed? then reply.message else NoResponse))
    case Some(content) =>
      match parseJson(StripFences(content))
      case None => PropertyEvaluation(property, false, ParseFailure)
      case Some(parsed) => PropertyEvaluation(property, parsed.matches, parsed.reasoning)
  }

  /// The fallbacks: a failed call or an empty answer gives a non-match whose
  /// reasoning starts with "Error during evaluation: " and names the cause; an
  /// answer that does not parse gives a non-match with the fixed reasoning.
  lemma Fallbacks(property: PropertyDetail, criteria: string, parse: string -> seq<Node>,
                  oracle: DetailPrompt -> Reply, parseJson: string -> Option<ParsedEvaluation>)
    ensures var reply := oracle(PromptFor(property, criteria, parse));
      var e := EvaluatePropertyDetail(property, criteria, parse, oracle, parseJson);
      (reply.Failed? ==> !e.matches && e.reasoning == ErrorPrefix + reply.message)
      && (reply.Answered? && TrimmedContent(reply).None? ==> !e.matches && e.reasoning == ErrorPrefix + NoResponse)
      && (TrimmedContent(reply).Some? && parseJson(StripFences(TrimmedContent(reply).value)).None? ==>
            !e.matches && e.reasoning == ParseFailure)
  {
  }

  /// A verdict read from the answer is reported as it is, on the input
  /// property.
  lemma ParsedVerdictKept(property: PropertyDetail, criteria: string, parse: string -> seq<Node>,
                          oracle: DetailPrompt -> Reply, parseJson: string -> Option<ParsedEvaluation>)
    requires var content := TrimmedContent(oracle(PromptFor(property, criteria, parse)));
      content.Some? && parseJson(StripFences(content.value)).Some?
    ensures var content := TrimmedContent(oracle(PromptFor(property, criteria, parse)));
      var parsed := parseJson(StripFences(content.value)).value;
      EvaluatePropertyDetail(property, criteria, parse, oracle, parseJson) == PropertyEvaluation(property, parsed.matches, parsed.reasoning)
  {
  }

  /// `evaluatePropertyDetail` with the criteria and the services fixed.
  function Evaluator(criteria: string, parse: string -> seq<Node>, oracle: DetailPrompt -> Reply,
                     parseJson: string -> Option<ParsedEvaluation>): PropertyDetail -> PropertyEvaluation
  {
    property => EvaluatePropertyDetail(property, criteria, parse, oracle, parseJson)
  }

  /// `evaluateAllProperties(properties, criteria)` (lines 124-165).
  method EvaluateAllProperties(properties: seq<PropertyDetail>, criteria: string, parse: string -> seq<Node>,
                               oracle: DetailPrompt -> Reply, parseJson: string -> Option<ParsedEvaluation>)
    returns (evaluations: seq<PropertyEvaluation>)
    ensures |evaluations| == |properties|
    ensures forall i :: 0 <= i < |properties| ==> evaluations[i] == Evaluator(criteria, parse, oracle, parseJson)(properties[i])
  {
    if |properties| == 0 {
      return [];
    }
    evaluations := EvaluateInOrder(properties, Evaluator(criteria, parse, oracle, parseJson));
  }

  /// The loop of lines 137-157: one evaluation pushed per property, in order.
  method EvaluateInOrder(properties: seq<PropertyDetail>, evaluate: PropertyDetail -> PropertyEvaluation)
    returns (evaluations: seq<PropertyEvaluation>)
    ensures |evaluations| == |properties|
    ensures forall i :: 0 <= i < |properties| ==> evaluations[i] == evaluate(properties[i])
  {
    evaluations := [];
    for i := 0 to |properties|
      invariant |evaluations| == i
      invariant forall j :: 0 <= j < i ==> evaluations[j] == evaluate(properties[j])
    {
      var property := properties[i];
      var evaluation := evaluate(property);
      evaluations := evaluations + [evaluation];
    }
  }

  /// Every evaluation reports its own input property, and a property matches
  /// only when the oracle's answer for it parsed with a truthy `matches`: a
  /// failure for one property is a non-match for it alone.
  lemma OnePerInput(properties: seq<PropertyDetail>, evaluations: seq<PropertyEvaluation>, criteria: string,
                    parse: string -> seq<Node>, oracle: DetailPrompt -> Reply, parseJson: string -> Option<ParsedEvaluation>)
    requires |evaluations| == |properties|
    requires forall i :: 0 <= i < |properties| ==> evaluations[i] == Evaluator(criteria, parse, oracle, parseJson)(properties[i])
    ensures forall i :: 0 <= i < |properties| ==> evaluations[i].property == properties[i]
    ensures forall i :: 0 <= i < |properties| ==>
      (evaluations[i].matches <==> (TrimmedContent(oracle(PromptFor(properties[i], criteria, parse))).Some?
        && parseJson(StripFences(TrimmedContent(oracle(PromptFor(properties[i], criteria, parse))).value)).Some?
        && parseJson(StripFences(TrimmedContent(oracle(PromptFor(properties[i], criteria, parse))).value)).value.matches))
  {
  }
}
