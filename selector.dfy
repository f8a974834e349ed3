/**
  The model-selection table: which hosted model serves each agent task type.
*/
module Selector {
  import opened Wrappers
  import opened Dicts

  /** `MODEL_MAP`, in the dictionary's insertion order. */
  const ModelMap: Dict<string, string> := [
    ("summarization", "meta-llama/Llama-3-8b-instruct"),
    ("relevance", "mistralai/Mistral-7B-Instruct-v0.2"),
    ("risk_analysis", "google/gemma-7b-it"),
    ("trend_detection", "microsoft/phi-3-mini-128k-instruct")
  ]

  /** The model used for a task type the table does not name. */
  const DefaultModel: string := "meta-llama/Llama-3-8b-instruct"

  /**
    `get_model_for_task`: each of the four task types gets its own model, every other
    task type gets the default, and whatever the task type, the model is one the table
    lists (the default is the summarisation model).
  */
  function ModelForTask(taskType: string): (model: string)
    ensures taskType == "summarization" ==> model == "meta-llama/Llama-3-8b-instruct"
    ensures taskType == "relevance" ==> model == "mistralai/Mistral-7B-Instruct-v0.2"
    ensures taskType == "risk_analysis" ==> model == "google/gemma-7b-it"
    ensures taskType == "trend_detection" ==> model == "microsoft/phi-3-mini-128k-instruct"
    ensures taskType !in Keys(ModelMap) ==> model == DefaultModel
    ensures model in Values(ModelMap)
  {
    assert Values(ModelMap) == [ModelMap[0].1, ModelMap[1].1, ModelMap[2].1, ModelMap[3].1];
    Get(ModelMap, taskType).GetOr(DefaultModel)
  }
}
