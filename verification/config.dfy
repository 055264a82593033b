/** The static configuration: which packages are monitored and their learning context. */
module Config {
  import opened Seqs

  /** Per-package context: a human label, a category and relevance tags. */
  datatype Context = Context(displayName: string, category: string, relevance: seq<string>)

  /** The packages monitored by default, in checking order. */
  const Libraries: seq<string> := [
    "torch", "transformers", "ultralytics", "fastapi",
    "opencv-python", "ray", "supervision", "onnxruntime"
  ]

  const LibraryContext: map<string, Context> := map[
    "torch" := Context("PyTorch", "ML Framework", ["portfolio", "interview", "production"]),
    "transformers" := Context("Hugging Face Transformers", "LLM/NLP", ["portfolio", "interview", "production"]),
    "ultralytics" := Context("Ultralytics (YOLOv8)", "Object Detection", ["portfolio", "production"]),
    "fastapi" := Context("FastAPI", "API Framework", ["portfolio", "interview", "production"]),
    "opencv-python" := Context("OpenCV", "Computer Vision", ["portfolio", "interview"]),
    "ray" := Context("Ray", "Distributed ML", ["production", "interview"]),
    "supervision" := Context("Supervision (Roboflow)", "CV Utilities", ["portfolio"]),
    "onnxruntime" := Context("ONNX Runtime", "Model Optimization", ["production"])
  ]

  /** The three relevance tags the configuration uses. */
  const KnownTags: set<string> := {"portfolio", "interview", "production"}

  /** The configured display name, falling back to the package id itself. */
  function DisplayName(context: map<string, Context>, pkg: string): (d: string)
    ensures pkg in context ==> d == context[pkg].displayName
    ensures pkg !in context ==> d == pkg
  {
    if pkg in context then context[pkg].displayName else pkg
  }

  /** The configured relevance tags, or none for an unconfigured package. */
  function Relevance(context: map<string, Context>, pkg: string): (tags: seq<string>)
    ensures pkg in context ==> tags == context[pkg].relevance
    ensures pkg !in context ==> tags == []
  {
    if pkg in context then context[pkg].relevance else []
  }

  /** Eight packages are monitored by default, none twice. */
  lemma LibrariesDistinct()
    ensures |Libraries| == 8
    ensures Distinct(Libraries)
  {
  }

  /**
   * Every default package has a context entry, so neither lookup falls back
   * for the default set, and every display name differs from its package id.
   */
  lemma LibrariesHaveContext()
    ensures forall p :: p in Libraries ==> p in LibraryContext
    ensures forall p :: p in Libraries ==> DisplayName(LibraryContext, p) != p
    ensures LibraryContext.Keys == set p | p in Libraries
  {
  }

  /** Every configured tag is one of "portfolio", "interview" and "production". */
  lemma RelevanceTagsKnown()
    ensures forall p, t :: p in LibraryContext && t in LibraryContext[p].relevance ==> t in KnownTags
  {
  }
}
