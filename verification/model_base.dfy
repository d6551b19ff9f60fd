/** The shared part of the generation backends in models/base.py: the response
    record and the prompt every backend sends. */
module ModelBase {
  import opened Wrappers

  /** A backend's answer; `error` is `None` unless the call failed. */
  datatype ModelResponse = ModelResponse(customizedResume: string, error: Option<string>)

  /** A response built from text alone, as `ModelResponse(customized_resume=...)` does. */
  function Completed(text: string): (r: ModelResponse)
    ensures r.customizedResume == text && !Failed(r)
  {
    ModelResponse(text, None)
  }

  /** The caller's `if result.error:` test: an error counts only when it is a
      non-empty string, because an empty string is falsy in Python. */
  predicate Failed(r: ModelResponse) {
    r.error.Some? && r.error.value != ""
  }

  const PromptPrefix: string :=
    "\n        Task: Customize the provided resume for the specific job description.\n"
    + "        \n        Resume:\n        "

  const PromptMiddle: string :=
    "\n        \n        Job Description:\n        "

  const PromptSuffix: string :=
    "\n        \n        Instructions:\n"
    + "        1. Optimize the resume content for this specific job\n"
    + "        2. Keep all information truthful\n"
    + "        3. Match keywords and skills from the job description\n"
    + "        4. Maintain professional formatting\n"
    + "        5. Return only the customized resume text\n        "

  /** The number of characters the template adds around the two inputs. */
  const PromptOverhead: nat := |PromptPrefix| + |PromptMiddle| + |PromptSuffix|

  /** `_create_prompt`: the fixed template with the resume text, then the job
      description, interpolated. */
  function CreatePrompt(resumeText: string, jobDescription: string): (p: string)
    ensures |p| == PromptOverhead + |resumeText| + |jobDescription|
    ensures p[..|PromptPrefix|] == PromptPrefix
    ensures p[|p| - |PromptSuffix|..] == PromptSuffix
  {
    PromptPrefix + resumeText + PromptMiddle + jobDescription + PromptSuffix
  }

  /** The resume text read back out of a prompt, given its length. */
  function ResumeOf(prompt: string, resumeLength: nat): string
    requires |PromptPrefix| + resumeLength <= |prompt|
  {
    prompt[|PromptPrefix|..|PromptPrefix| + resumeLength]
  }

  /** The job description read back out of a prompt, given the resume length. */
  function JobDescriptionOf(prompt: string, resumeLength: nat): string
    requires PromptOverhead + resumeLength <= |prompt|
  {
    prompt[|PromptPrefix| + resumeLength + |PromptMiddle|..|prompt| - |PromptSuffix|]
  }

  /** Both inputs appear unchanged in the prompt, the resume text first, each
      framed by the fixed parts of the template. */
  lemma PromptRoundTrip(resumeText: string, jobDescription: string)
    ensures var p := CreatePrompt(resumeText, jobDescription);
      && ResumeOf(p, |resumeText|) == resumeText
      && JobDescriptionOf(p, |resumeText|) == jobDescription
      && p[|PromptPrefix| + |resumeText|..|PromptPrefix| + |resumeText| + |PromptMiddle|] == PromptMiddle
  {
    var p := CreatePrompt(resumeText, jobDescription);
    assert p == PromptPrefix + resumeText + PromptMiddle + jobDescription + PromptSuffix;
  }

  /** Two prompts are equal only when they were built from the same inputs
      (given resume texts of equal length). */
  lemma PromptInjective(r1: string, j1: string, r2: string, j2: string)
    requires |r1| == |r2|
    requires CreatePrompt(r1, j1) == CreatePrompt(r2, j2)
    ensures r1 == r2 && j1 == j2
  {
    PromptRoundTrip(r1, j1);
    PromptRoundTrip(r2, j2);
  }
}
