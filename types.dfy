/** The analysis record the application displays, field for field. */
module Types {

  datatype Complexity = Complexity(time: string, space: string, explanation: string)

  datatype Example = Example(input: string, output: string, explanation: string)

  datatype VisualizationData = VisualizationData(
    summary: string,
    mermaidChart: string,
    dataStructureChart: string,
    complexity: Complexity,
    examples: seq<Example>,
    edgeCases: seq<string>,
    tags: seq<string>)
}
