# Content summarizer library, modelled in Dafny

This project models `summarization_lib.py`, the library behind a Streamlit
summarizer that sends text to Claude v2 on Amazon Bedrock. The library does
three things.

- `get_text_summary` checks that the Bedrock client exists and that the text is
  not blank. It then wraps the text in a fixed prompt, sends the request, and
  returns the stripped completion. Any failure becomes an exception with a
  message.
- `summarize_with_custom_params` does the same with a shorter prompt and a
  caller-chosen token limit and temperature. It does not check the text, and
  every failure inside the `try` gets one prefix.
- `get_summarization_stats` counts words (as `str.split()` does) and
  characters, and computes how much shorter the summary is.

The model is pure, like the source.

- `pystr.dfy` (module `PyStr`) models the Python string built-ins the library
  relies on: `str.isspace`, `str.split()` and `str.strip()`. Its lemmas relate
  `split` to independent descriptions of a word.
- `stats.dfy` (module `SummarizationStats`) models `get_summarization_stats`.
- `summarize.dfy` (module `Summarize`) models the two summarizing functions.
  - The module-level client becomes the flag `clientReady`.
  - The Bedrock call becomes the parameter `reply`. It is either the parsed
    response, with its `completion` entry if it has one, or the exception the
    call raised: a `ClientError`, a `JSONDecodeError` or any other exception.
  - Each function returns the request it sent, if any, and the summary or the
    exception that leaves the function.

The model follows the code where a plain description of the library
differs from it.

- Errors are plain `Exception`s carrying messages, except the empty-text
  error, which is a `ValueError`. They are not typed error kinds.
- An empty completion does not surface as an error of its own. It is raised
  inside the `try`, so the catch-all clause re-wraps it as
  `Unexpected error during summarization: Empty response from Bedrock`.
- `summarize_with_custom_params` does not share the error taxonomy of
  `get_text_summary`. It accepts blank text, may return an empty string, and
  reports every failure inside the `try` as
  `Error in custom summarization: ...`, including a provider error.
- The first two lines of the long prompt end in a space before the newline.
  The model keeps those spaces.

## Model

| member | source | states |
|---|---|---|
| PyStr.IsSpaceInAscii | summarization_lib.py:39 | the whitespace that `strip()` and `split()` use is, in ASCII, exactly space, tab, line feed, vertical tab, form feed, carriage return and the four information separators; no letter or digit is whitespace |
| PyStr.Split | summarization_lib.py:104-105 | every word `split()` yields is non-empty and holds no whitespace, and there are no more words than characters |
| PyStr.WordCount | summarization_lib.py:104-105 | `len(s.split())` is the number of positions where a maximal non-whitespace run begins; it is 0 exactly when the text is empty or all whitespace; twice the count is at most the length plus one |
| PyStr.WordCountIsWordStarts | summarization_lib.py:104-105 | the number of words `split()` yields equals the number of word-start positions (a non-whitespace character that is first or follows whitespace) |
| PyStr.NoWordsIffAllSpace | summarization_lib.py:104-105 | `split()` yields no words if and only if the text is empty or whitespace only |
| PyStr.WordsAreSeparated | summarization_lib.py:104-105 | words are separated by whitespace, so a text of length L has at most (L + 1) / 2 words |
| PyStr.SplitKeepsText | summarization_lib.py:104-105 | joining the words of `split()` gives back the text with exactly its whitespace characters removed, in order |
| PyStr.SplitJoinWords | summarization_lib.py:104-105 | `split()` undoes `' '.join` on any list of non-empty, whitespace-free words |
| PyStr.SplitIgnoresOuterSpace | summarization_lib.py:104-105 | leading and trailing whitespace changes nothing: `s.strip().split() == s.split()` |
| PyStr.Strip | summarization_lib.py:39 | `strip()` leaves no whitespace at either end, and its result is empty exactly when the text is empty or all whitespace |
| PyStr.StripIsInfix | summarization_lib.py:39 | `strip()` returns an infix of the text with only whitespace before and after it, so it removes nothing else |
| SummarizationStats.ReductionPercentage | summarization_lib.py:106 | 0 when the original has no words; otherwise the percentage times the original word count equals 100 times the number of words dropped |
| SummarizationStats.GetSummarizationStats | summarization_lib.py:92-114 | character counts are the two lengths; word counts are the numbers of maximal non-whitespace runs, at most the character counts, and 0 exactly for blank texts; the reduction is the reduction percentage of those two word counts |
| SummarizationStats.NoOriginalWordsNoReduction | summarization_lib.py:106 | an empty or whitespace-only original gives reduction 0, with no division, whatever the summary |
| SummarizationStats.ReductionExtremes | summarization_lib.py:106 | with at least one original word, before rounding: reduction is 100 iff the summary has no words, 0 iff the counts are equal, never above 100, and non-negative iff the summary has no more words |
| SummarizationStats.BlankSummaryFullReduction | summarization_lib.py:104-106 | a blank summary of a non-blank original gives reduction 100 |
| SummarizationStats.StatsIgnoreOuterSpace | summarization_lib.py:104-106 | stripping either text changes neither word count nor the reduction |
| SummarizationStats.StatsOfEmptyTexts | summarization_lib.py:104-113 | two empty texts give all counts 0 and reduction 0 |
| SummarizationStats.StatsOfHalvedText | summarization_lib.py:104-113 | `"a b c d"` summarized as `"a b"` gives 4 and 2 words, 7 and 3 characters, reduction 50 |
| Summarize.Prompt | summarization_lib.py:43-50 | the prompt is the fixed head, the text verbatim, then `"\n\nAssistant:"`, so the text can be read back from it |
| Summarize.PromptTextInverse | summarization_lib.py:43-50 | the text is recovered from a prompt if and only if the prompt is the head, that text verbatim, then `"\n\nAssistant:"`, so different texts give different prompts |
| Summarize.SummaryRequest | summarization_lib.py:43-69 | the request carries the text verbatim in the comprehensive-summary prompt, model `anthropic.claude-v2`, JSON in and out, 1000 tokens, temperature 0.5, top_p 0.9, top_k 250, stop sequence `"\n\nHuman:"` |
| Summarize.CustomRequest | summarization_lib.py:133-152 | the custom request carries the text verbatim in the short prompt, model `anthropic.claude-v2`, JSON in and out, the caller's token limit and temperature, top_p 0.9, and no top_k or stop sequence |
| Summarize.IsEmptyInput | summarization_lib.py:39 | `not text or len(text.strip()) == 0` holds exactly when the text is empty or whitespace only |
| Summarize.CompletionOrEmpty | summarization_lib.py:73 | `get('completion', '')` is the entry unchanged when present, and is blank exactly when the entry is missing or blank |
| Summarize.SummaryTryBlock | summarization_lib.py:62-78 | a value that leaves the `try` is non-empty and has no whitespace at either end |
| Summarize.SummaryHandler | summarization_lib.py:80-89 | every exception re-raised by the handlers is a plain `Exception` |
| Summarize.HandlerPrefixes | summarization_lib.py:80-89 | every handler message starts with its clause's prefix (provider error, parse error or unexpected error), so none is the empty-text message |
| Summarize.GetTextSummary | summarization_lib.py:22-89 | a request is sent iff the client exists and the text is not blank, and it is the summary request for that text; a returned summary is non-empty with no whitespace at either end |
| Summarize.ClientCheckedFirst | summarization_lib.py:36-37 | without a client every call, even with empty text, raises the "not initialized" exception and sends nothing |
| Summarize.BlankTextRejectedBeforeCall | summarization_lib.py:39-40 | with a client, blank text raises `ValueError("Text content cannot be empty")` and sends nothing |
| Summarize.RejectedCallIgnoresReply | summarization_lib.py:36-40 | when either check fails the result does not depend on what the model would have answered |
| Summarize.SummarySucceedsExactly | summarization_lib.py:62-78 | a summary is returned iff the client exists, the text is not blank and the completion is present and not blank; it is then the stripped completion |
| Summarize.BlankCompletionRewrapped | summarization_lib.py:72-89 | a missing or blank completion raises `Unexpected error during summarization: Empty response from Bedrock` |
| Summarize.ClientErrorReported | summarization_lib.py:80-83 | a `ClientError` raises `AWS Bedrock Error (code): message`, with the provider's code and message unchanged |
| Summarize.ParseErrorReported | summarization_lib.py:85-86 | a response body that is not JSON raises `Error parsing Bedrock response: ` followed by the decoder's message |
| Summarize.UnexpectedErrorReported | summarization_lib.py:88-89 | any other exception raised by the call raises `Unexpected error during summarization: ` followed by its message |
| Summarize.SummaryErrorKinds | summarization_lib.py:36-89 | every exception is the client error, the empty-text error (the only `ValueError`), or carries the provider-error, parse-error or unexpected-error prefix |
| Summarize.CustomTryBlock | summarization_lib.py:146-155 | a value returned by the custom `try` has no whitespace at either end, and it is empty exactly when the completion is missing or blank; such an empty value is returned, not raised |
| Summarize.SummarizeWithCustomParams | summarization_lib.py:117-158 | the custom call sends its request whenever the client exists, whatever the text; with a client every failure is an `Exception` with the custom-summarization prefix |
| Summarize.CustomDefaults | summarization_lib.py:117 | called without a token limit or temperature, the custom request asks for 500 tokens at temperature 0.5 |
| Summarize.CustomClientCheckedFirst | summarization_lib.py:130-131 | without a client the custom call raises the short "not initialized" exception and sends nothing |
| Summarize.CustomMayReturnEmpty | summarization_lib.py:133-155 | with a client, any text (even empty) and a blank or missing completion give the empty summary and no exception |
| Summarize.CustomFailureWrapped | summarization_lib.py:157-158 | every exception inside the custom call, a provider error included, becomes `Error in custom summarization: ` followed by `str(e)` |
| Summarize.CustomReturnsCompletion | summarization_lib.py:146-155 | with a client and any text, blank included, the custom call returns exactly when the model responded, and then returns the stripped completion (`""` when it is missing) |
| Summarize.CustomAgreesOnSuccess | summarization_lib.py:62-158 | on the same reply the custom call returns the same summary whenever `get_text_summary` succeeds; for non-blank text it returns a non-empty summary exactly when `get_text_summary` succeeds |

## Left out

- Creating the Bedrock client (`boto3.client`) and printing its failure are not modelled. They are a foreign call and console output. Whether the client exists is the parameter `clientReady`.
- `invoke_model`, reading the response body, and `json.dumps`/`json.loads` are not modelled. They are network and library calls. Their effect is the `reply` parameter: the parsed `completion` entry, or the exception they raised.
- `str(e)` of the exceptions raised by the call is taken from the `reply` value. botocore's formatting of a `ClientError` is not part of this model.
- A `ClientError` whose response lacks `Error.Code` or `Error.Message` is not modelled. The handler would then raise a `KeyError` of its own.
- A response body that is not a dictionary, or whose `completion` is not a string, is not modelled as a separate case. Python raises an `AttributeError` inside the `try`, which the `reply` value covers as "any other exception".
- SummarizationStats.ReductionPercentage: gives the exact real value before `round(..., 2)`, because floating-point rounding is not modelled. When the original has no words, Python returns the integer `0` rather than a float; the model returns `0.0`. The exact values 0, 50 and 100 survive rounding to two decimals.
- SummarizationStats.ReductionExtremes: its "only if" directions hold of the unrounded value only. After `round(..., 2)` only the forward directions hold (no summary words gives 100, equal counts give 0). For example, 20001 original words and 1 summary word round to `100.0`; 20001 and 20000 round to `0.0`; 20001 and 20002 round to `-0.0`, which is not negative.
- Temperatures and `top_p` are reals here, not binary floating-point numbers.
- `MODEL_INFO` (summarization_lib.py:162-167) is a static dictionary of descriptive strings with no behaviour.
- `summarization_app.py` is Streamlit UI and is not part of this model. This covers the page, the widgets, the choice between an uploaded file and typed text, the length selector that is never passed to the library, and the app's own reduction figure.
- `PyStr.IsSpace` lists the code points for which Python's `str.isspace()` is true in current Unicode data. Changes between Unicode versions are not modelled.
