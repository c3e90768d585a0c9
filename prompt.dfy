/**
 * `buildVAKPrompt`: the generation instruction for a topic, adapted to the
 * student's VAK learning style. The style picks a pair of instructions (how to
 * structure the explanation, which kinds of references to cite); the pair is
 * placed in a fixed template together with the topic and the style.
 */
module PromptBuilder {
  import opened Wrappers
  import opened Text

  // The instruction pairs, one per recognised style and one standard pair.

  const VisualAdaptation: string :=
    "\n"
    + "                Estructura la respuesta usando encabezados, listas numeradas o con viñetas, y metáforas visuales. Incluye un 'Resumen con Diagrama' al final, explicando qué elementos deberían representarse visualmente. Evita descripciones largas y densas.\n"
    + "            "

  const VisualReferences: string :=
    "\n"
    + "                De las 3 a 5 referencias, ASEGÚRATE de que al menos 2 sean enlaces directos a VIDEOS (YouTube, Video o canales universitarios) o a DIAGRAMAS/INFOGRAFÍAS relevantes.\n"
    + "                El resto debe ser académico y confiables(Scopus, Google Scholar, Scielo, etc.).\n"
    + "            "

  const AuditoryAdaptation: string :=
    "\n"
    + "                **ADAPTACIÓN AUDITIVA:** Lo explicaremos como una conversación o un podcast.\n"
    + "                - Usa un tono dinámico y persuasivo, como si estuvieras en una tutoría uno a uno.\n"
    + "                - Utiliza muchas analogías y ejemplos que se puedan \"contar\" o \"discutir\".\n"
    + "                - Incluye una sección final llamada **\"Punto Clave para la Memoria Auditiva\"** que resuma la idea principal en una frase corta, rítmica o fácil de repetir en voz alta.\n"
    + "            "

  const AuditoryReferences: string :=
    "\n"
    + "                De las 3 a 5 referencias, ASEGÚRATE de que al menos 2 sean enlaces a contenido de AUDIO o VIDEO (Podcasts, Conferencias, Canales de YouTube) donde se explique el tema.\n"
    + "                El resto debe ser académico y confiables(Scopus, Google Scholar, Scielo, etc.).\n"
    + "            "

  const KinestheticAdaptation: string :=
    "\n"
    + "                La explicación debe enfocarse en la práctica y la aplicación. Divide el tema en 'Pasos a Seguir' o 'Ejercicios Prácticos'. Concluye con un mini-desafío o experimento relacionado con el tema.\n"
    + "            "

  const KinestheticReferences: string :=
    "\n"
    + "                De las 3 a 5 referencias, ASEGÚRATE de que al menos 2 sean enlaces a SIMULACIONES INTERACTIVAS, TUTORIALES PASO A PASO o guías de LABORATORIO/EJERCICIOS relacionados con el tema.\n"
    + "                El resto debe ser académico y confiables(Scopus, Google Scholar, Scielo, etc.).\n"
    + "            "

  const StandardAdaptation: string :=
    "Proporciona la información de manera estándar y estructurada."

  const StandardReferences: string :=
    "Lista 3 a 5 referencias académicas y confiables (Scopus, Google Scholar, Scielo, etc.)."

  const Preamble: string :=
    "\n"
    + "        Eres un **Tutor Experto Académico y Especialista en Verificación de Hechos**, con un dominio profundo de todas las áreas del conocimiento universitario (Ciencias Sociales, Ingenierías, Humanidades, Salud, Negocios, etc).\n"
    + "        Tu misión es proporcionar información **veraz, confiable y profunda** sobre el tema solicitado, ajustando tambien el corto tiempo que tiene el estudiante para buscar el contenido deseado.\n"
    + "\n"
    + "        **Tema de Estudio**: "

  const StyleLabel: string :=
    "\n"
    + "        **Estilo de Aprendizaje del Estudiante**: "

  const RulesBeforeHeading: string :=
    "\n"
    + "\n"
    + "        **INSTRUCCIONES CLAVE DE ADAPTACIÓN**:\n"
    + "        1. Explica el tema a fondo.\n"
    + "        2. Asegúrate de que la explicación se adhiera estrictamente a los hechos y la ciencia.\n"
    + "        3. **SIEMPRE, al final de tu respuesta, crea una sección llamada \""

  const ReferencesHeading: string :=
    "Referencias Bibliográficas"

  const RulesAfterHeading: string :=
    "\".**\n"
    + "        \n"
    + "        Instrucciones para la citación:\n"
    + "        1. Utiliza **SOLAMENTE** las URLs completas que se encuentran en la sección 'Fuentes de Búsqueda' que la herramienta de Google te proporciona y confirma que el enlace está activo.\n"
    + "        2. No inventes URLs ni modifiques las existentes.\n"
    + "        3. Si un título que mencionas no aparece en las fuentes de búsqueda proporcionadas en esta ejecución específica o parece caído, omitelo.\n"
    + "        4. Cita SOLAMENTE el título exacto que aparece en los resultados de búsqueda, motiva al estudiante a que investigue el contenido en el buscador (Por ejemplo, si es video de Youtube: \"Busca en Youtube: TITULO\").\n"
    + "        4. **En esta sección, "

  const ReferencesTail: string :=
    " que verifican la información proporcionada.\n"
    + "        5.  **BUSQUEDA PROFUNDA (DEEP RESEARCH):** Antes de generar tu respuesta, debes **analizar en profundidad** al menos las fuentes diversas obtenidas en el punto 4 sobre el tema. **Sintetiza la información más actual y relevante** para un dominio completo del conocimiento.\n"
    + "        5. "

  const Closing: string :=
    "\n"
    + "    "

  /** A style's two instructions. */
  datatype Instructions = Instructions(adaptation: string, references: string)

  /**
   * The switch on the style: strict equality with the three style names;
   * anything else, including a missing style, gets the standard pair.
   */
  function StyleInstructions(style: Option<string>): Instructions
  {
    if style == Some("Visual") then Instructions(VisualAdaptation, VisualReferences)
    else if style == Some("Auditory") then Instructions(AuditoryAdaptation, AuditoryReferences)
    else if style == Some("Kinesthetic") then Instructions(KinestheticAdaptation, KinestheticReferences)
    else Instructions(StandardAdaptation, StandardReferences)
  }

  /** How the template prints the style: the string itself, or `null` when the row has none. */
  function StyleText(style: Option<string>): string
  {
    if style.Some? then style.value else "null"
  }

  /** The template's pieces with its five holes filled, in order. */
  function Template(topic: string, styleText: string, references: string, adaptation: string): seq<string>
  {
    [Preamble, topic, StyleLabel, styleText, RulesBeforeHeading, ReferencesHeading,
     RulesAfterHeading, references, ReferencesTail, adaptation, Closing]
  }

  /**
   * The prompt. Whatever the style, it embeds the topic, the style, the
   * required "Referencias Bibliográficas" section and both of the style's
   * instructions.
   */
  function BuildVAKPrompt(style: Option<string>, topic: string): (prompt: string)
    ensures Contains(prompt, topic)
    ensures Contains(prompt, StyleText(style))
    ensures Contains(prompt, ReferencesHeading)
    ensures Contains(prompt, StyleInstructions(style).references)
    ensures Contains(prompt, StyleInstructions(style).adaptation)
  {
    var ins := StyleInstructions(style);
    var parts := Template(topic, StyleText(style), ins.references, ins.adaptation);
    ConcatContainsPart(parts, 1);
    ConcatContainsPart(parts, 3);
    ConcatContainsPart(parts, 5);
    ConcatContainsPart(parts, 7);
    ConcatContainsPart(parts, 9);
    Concat(parts)
  }

  /** The four instruction pairs differ from each other in both parts. */
  lemma InstructionsDistinct()
    ensures var v, a, k, s := StyleInstructions(Some("Visual")), StyleInstructions(Some("Auditory")),
                              StyleInstructions(Some("Kinesthetic")), StyleInstructions(None);
      && v.adaptation != a.adaptation && v.adaptation != k.adaptation && v.adaptation != s.adaptation
      && a.adaptation != k.adaptation && a.adaptation != s.adaptation && k.adaptation != s.adaptation
      && v.references != a.references && v.references != k.references && v.references != s.references
      && a.references != k.references && a.references != s.references && k.references != s.references
  {
  }

  /** Any style other than the three names is treated as the missing style. */
  lemma UnrecognisedStyleIsStandard(style: Option<string>)
    requires style != Some("Visual") && style != Some("Auditory") && style != Some("Kinesthetic")
    ensures StyleInstructions(style) == StyleInstructions(None)
    ensures StyleInstructions(style) == Instructions(StandardAdaptation, StandardReferences)
  {
  }
}
