/** The game's static configuration: the ordered list of animals and the two timer constants. */
module Constants {

  datatype Animal = Animal(name: string, hint: string)

  /** Level `i` of the game shows `AnimalsList[i]`; the order is the progression. */
  const AnimalsList: seq<Animal> := [
    Animal("ELEFANTE", "El animal terrestre más grande, con una trompa increíble."),
    Animal("JIRAFA", "Tiene el cuello más largo del mundo para comer hojas altas."),
    Animal("LEÓN", "El felino rey con una melena majestuosa."),
    Animal("CABALLO", "Un animal veloz que corre por las praderas."),
    Animal("GORILA", "Un primate muy fuerte que vive en la selva."),
    Animal("CANGURO", "Salta muy alto y lleva a sus crías en una bolsa."),
    Animal("RINOCERONTE", "Tiene uno o dos cuernos grandes en su nariz."),
    Animal("COCODRILO", "Un reptil con mandíbulas poderosas que vive en el agua."),
    Animal("CAMELLO", "Tiene jorobas para sobrevivir en el desierto."),
    Animal("TIGRE", "Un gran felino naranja con rayas negras."),
    Animal("HIPOPÓTAMO", "Pasa casi todo el día sumergido en el agua."),
    Animal("AVESTRUZ", "El ave más grande del mundo, pero no puede volar."),
    Animal("OSO POLAR", "Un gran cazador blanco que vive en el hielo."),
    Animal("CEBRA", "Parece un caballo pero está lleno de rayas."),
    Animal("TORTUGA", "Su esqueleto incluye un caparazón muy duro.")
  ]

  /** Number of levels (`ANIMALS_LIST.length`). */
  const N: nat := |AnimalsList|

  /** Seconds on the countdown at the start of every level. */
  const TimerDuration: int := 30

  /** The hint is shown once at most this many seconds remain. */
  const HintThreshold: int := 15

  lemma LevelCount()
    ensures N == 15
    ensures 0 < HintThreshold < TimerDuration
  {
  }
}
